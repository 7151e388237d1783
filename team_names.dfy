/**
 * The name handling the team resolver relies on: the one-shot removal of a
 * generic club word, the KBO short-code table, and the "simplifier" that
 * strips accents and punctuation before the last, fuzzy matching stage.
 */
module TeamNames {
  import opened Wrappers
  import opened Text

  // ---------------------------------------------------------------------------
  // normalizeTeamName: `/\s(FC|United|...|Hotspur)$|^(FC|Real)\s/i`, replaced once
  // ---------------------------------------------------------------------------

  /** The words the first alternative removes when they end the name after white space. */
  const GenericSuffixes: seq<string> :=
    ["FC", "United", "Utd", "CF", "AC", "RC", "SC", "AS", "Real", "City", "Hotspur"]

  /** The words the second alternative removes when they start the name before white space. */
  const GenericPrefixes: seq<string> := ["FC", "Real"]

  /** Equality under the regular expression's `i` flag (ASCII letters only, as in non-Unicode mode). */
  predicate SameIgnoringCase(a: string, b: string) {
    Lower(a) == Lower(b)
  }

  predicate IsGenericWord(x: string, words: seq<string>) {
    exists i :: 0 <= i < |words| && SameIgnoringCase(x, words[i])
  }

  /** The first alternative matches at position `p`: white space, then a generic word up to the end. */
  predicate SuffixMatchAt(s: string, p: int) {
    0 <= p < |s| && IsWhitespace(s[p]) && IsGenericWord(s[p + 1..], GenericSuffixes)
  }

  /** The length of the second alternative's match at the start of `s`, or 0 when it does not match. */
  function PrefixMatchLength(s: string): (n: nat)
    ensures n == 0 || (n <= |s| && IsWhitespace(s[n - 1]) && IsGenericWord(s[..n - 1], GenericPrefixes))
    ensures n == 0 <==> !exists k :: 0 < k < |s| && IsWhitespace(s[k]) && IsGenericWord(s[..k], GenericPrefixes)
  {
    if 2 < |s| && SameIgnoringCase(s[..2], GenericPrefixes[0]) && IsWhitespace(s[2]) then
      assert s[..3 - 1] == s[..2];
      3
    else if 4 < |s| && SameIgnoringCase(s[..4], GenericPrefixes[1]) && IsWhitespace(s[4]) then
      assert s[..5 - 1] == s[..4];
      5
    else
      // a generic prefix word has two or four characters, and neither of those matched
      forall k | 0 < k < |s| && IsWhitespace(s[k]) ensures !IsGenericWord(s[..k], GenericPrefixes) {
        assert |Lower(s[..k])| == k;
      }
      0
  }

  /** The leftmost position at or after `from` where the first alternative matches. */
  function FirstSuffixMatch(s: string, from: nat): (r: Option<nat>)
    ensures r.Some? ==> from <= r.value < |s| && SuffixMatchAt(s, r.value)
    ensures r.Some? ==> forall p :: from <= p < r.value ==> !SuffixMatchAt(s, p)
    ensures r.None? ==> forall p :: from <= p ==> !SuffixMatchAt(s, p)
    decreases |s| - from
  {
    if from >= |s| then None
    else if SuffixMatchAt(s, from) then Some(from)
    else FirstSuffixMatch(s, from + 1)
  }

  predicate HasGenericWord(s: string) {
    (exists p :: 0 <= p < |s| && SuffixMatchAt(s, p)) || PrefixMatchLength(s) > 0
  }

  /**
   * One `replace` with the pattern: the search tries the positions from left to
   * right, and at each the suffix alternative before the prefix alternative.
   */
  function StripGenericWord(s: string): (r: string)
    ensures |r| <= |s|
    ensures IsPrefix(r, s) || r == s[|s| - |r|..]
    ensures r == s <==> !HasGenericWord(s)
  {
    if SuffixMatchAt(s, 0) then ""
    else if PrefixMatchLength(s) > 0 then s[PrefixMatchLength(s)..]
    else match FirstSuffixMatch(s, 1)
      case Some(p) => s[..p]
      case None => s
  }

  function NormalizeTeamName(name: string): string {
    Trim(StripGenericWord(name))
  }

  /** A name without white space has no generic word to lose and nothing to trim. */
  lemma WithoutWhitespaceIsNormal(s: string)
    requires forall k :: 0 <= k < |s| ==> !IsWhitespace(s[k])
    ensures Trim(s) == s && NormalizeTeamName(s) == s
  {
    assert !HasGenericWord(s);
    assert TrimStart(s) == s;
  }

  /** A trimmed string is a contiguous piece of the original. */
  lemma TrimIsPiece(s: string)
    ensures Contains(s, Trim(s))
  {
    var a := TrimStart(s);
    var r := TrimEnd(a);
    var i := |s| - |a|;
    assert s[i..i + |r|] == r;
    ContainsAt(s, r, i);
  }

  /** A piece of a prefix or a suffix of `s` is a piece of `s`. */
  lemma PieceOfEnd(s: string, e: string, r: string)
    requires |e| <= |s| && (IsPrefix(e, s) || e == s[|s| - |e|..])
    requires Contains(e, r)
    ensures Contains(s, r)
  {
    var j := ContainsWitness(e, r);
    if IsPrefix(e, s) {
      assert s[j..j + |r|] == e[j..j + |r|];
      ContainsAt(s, r, j);
    } else {
      var off := |s| - |e|;
      assert s[off + j..off + j + |r|] == e[j..j + |r|];
      ContainsAt(s, r, off + j);
    }
  }

  /** Normalising only ever removes: the result lies inside the original name. */
  lemma NormalizedIsPieceOfName(name: string)
    ensures Contains(name, NormalizeTeamName(name))
  {
    var stripped := StripGenericWord(name);
    TrimIsPiece(stripped);
    PieceOfEnd(name, stripped, Trim(stripped));
  }

  /** The leftmost match is the position before which no match exists. */
  lemma FirstSuffixMatchIs(s: string, from: nat, p: nat)
    requires from <= p && SuffixMatchAt(s, p)
    requires forall q :: from <= q < p ==> !SuffixMatchAt(s, q)
    ensures FirstSuffixMatch(s, from) == Some(p)
  {
  }

  /**
   * A name that starts with `FC` or `Real`, in any case, and white space loses
   * that word and the one white-space character after it ("FC Seoul" becomes
   * "Seoul").
   */
  lemma StripLeadingWord(s: string, k: nat)
    requires 0 < k < |s| && IsWhitespace(s[k]) && IsGenericWord(s[..k], GenericPrefixes)
    ensures StripGenericWord(s) == s[k + 1..]
  {
    assert |Lower(s[..k])| == k;
    assert Lower(s[..k])[0] == LowerChar(s[0]);
    assert !SuffixMatchAt(s, 0);
  }

  /**
   * Only the last word goes: a name that ends in white space and a generic word,
   * and does not start with a generic prefix, loses exactly that word, even
   * when an earlier word is generic too ("Manchester City FC" keeps "City").
   */
  lemma StripTrailingWord(a: string, w: string)
    requires IsGenericWord(w, GenericSuffixes)
    requires PrefixMatchLength(a + [' '] + w) == 0
    ensures StripGenericWord(a + [' '] + w) == a
  {
    var s := a + [' '] + w;
    var p := |a|;
    assert s[p + 1..] == w;
    assert SuffixMatchAt(s, p);
    forall q | 0 <= q < p ensures !SuffixMatchAt(s, q) {
      assert s[q + 1..][p - q - 1] == ' ';
      NoWhitespaceInWords(s[q + 1..], p - q - 1);
    }
    if p > 0 {
      FirstSuffixMatchIs(s, 1, p);
      assert s[..p] == a;
    }
  }

  predicate IsAsciiLetter(c: char) {
    ('a' <= c <= 'z') || ('A' <= c <= 'Z')
  }

  /** Every generic word is spelled with letters only. */
  lemma GenericWordsAreLetters()
    ensures forall i, k :: 0 <= i < |GenericSuffixes| && 0 <= k < |GenericSuffixes[i]| ==>
              IsAsciiLetter(GenericSuffixes[i][k])
  {
  }

  /** So a piece with white space in it is no generic word. */
  lemma NoWhitespaceInWords(x: string, k: nat)
    requires k < |x| && IsWhitespace(x[k])
    ensures !IsGenericWord(x, GenericSuffixes)
  {
    GenericWordsAreLetters();
    forall i | 0 <= i < |GenericSuffixes| ensures !SameIgnoringCase(x, GenericSuffixes[i]) {
      var w := GenericSuffixes[i];
      if |w| == |x| {
        assert Lower(x)[k] == x[k];
        assert Lower(w)[k] == LowerChar(w[k]);
        assert Lower(x)[k] != Lower(w)[k];
      }
    }
  }

  // ---------------------------------------------------------------------------
  // getKboShortName
  // ---------------------------------------------------------------------------

  /** The lookup table, in the insertion order `Object.entries` enumerates it. */
  const KboCodeTable: seq<(string, string)> := [
    ("삼성", "SS"), ("삼성 라이온즈", "SS"), ("Samsung", "SS"),
    ("NC", "NC"), ("NC 다이노스", "NC"),
    ("LG", "LG"), ("LG 트윈스", "LG"),
    ("KT", "KT"), ("KT 위즈", "KT"),
    ("SSG", "SK"), ("SSG 랜더스", "SK"), ("SK", "SK"),
    ("키움", "WO"), ("키움 히어로즈", "WO"), ("히어로즈", "WO"),
    ("한화", "HH"), ("한화 이글스", "HH"),
    ("롯데", "LT"), ("롯데 자이언츠", "LT"),
    ("두산", "OB"), ("두산 베어스", "OB"),
    ("KIA", "HT"), ("KIA 타이거즈", "HT"), ("기아", "HT")
  ]

  const KboCodes: set<string> := {"SS", "NC", "LG", "KT", "SK", "WO", "HH", "LT", "OB", "HT"}

  /** The index of the entry whose key is exactly `name`. */
  function ExactKeyIndex(table: seq<(string, string)>, name: string): (r: Option<nat>)
    ensures r.Some? ==> r.value < |table| && table[r.value].0 == name
    ensures r.None? ==> forall i :: 0 <= i < |table| ==> table[i].0 != name
  {
    if table == [] then None
    else if table[0].0 == name then Some(0)
    else match ExactKeyIndex(table[1..], name)
      case Some(i) => Some(i + 1)
      case None => None
  }

  /** The index of the first entry, in table order, whose key occurs in `name`. */
  function FirstContainedKeyIndex(table: seq<(string, string)>, name: string): (r: Option<nat>)
    ensures r.Some? ==> r.value < |table| && Contains(name, table[r.value].0)
    ensures r.Some? ==> forall i :: 0 <= i < r.value ==> !Contains(name, table[i].0)
    ensures r.None? ==> forall i :: 0 <= i < |table| ==> !Contains(name, table[i].0)
  {
    if table == [] then None
    else if Contains(name, table[0].0) then Some(0)
    else match FirstContainedKeyIndex(table[1..], name)
      case Some(i) => Some(i + 1)
      case None => None
  }

  lemma KboTableShape()
    ensures forall i :: 0 <= i < |KboCodeTable| ==> KboCodeTable[i].1 in KboCodes
    ensures forall i :: 0 <= i < |KboCodeTable| ==> |KboCodeTable[i].0| > 0
  {
  }

  /** The exact entry first; otherwise the first key, in table order, that occurs in the name. */
  function KboShortName(name: string): (r: Option<string>)
    ensures r.Some? ==> r.value in KboCodes
  {
    KboTableShape();
    match ExactKeyIndex(KboCodeTable, name)
    case Some(i) => Some(KboCodeTable[i].1)
    case None =>
      match FirstContainedKeyIndex(KboCodeTable, name)
      case Some(i) => Some(KboCodeTable[i].1)
      case None => None
  }

  /** An exact key decides; otherwise there is a code iff some key occurs in the name. */
  lemma KboShortNameCases(name: string)
    ensures ExactKeyIndex(KboCodeTable, name).Some? ==>
              KboShortName(name) == Some(KboCodeTable[ExactKeyIndex(KboCodeTable, name).value].1)
    ensures KboShortName(name).None? <==>
              forall i :: 0 <= i < |KboCodeTable| ==> !Contains(name, KboCodeTable[i].0)
  {
    match ExactKeyIndex(KboCodeTable, name)
    case Some(i) =>
      ContainsBasics(name, name);
    case None =>
  }

  /** The table's keys are all non-empty, so the empty name has no code. */
  lemma EmptyNameHasNoKboCode(name: string)
    requires name == []
    ensures KboShortName(name) == None
  {
    KboTableShape();
    KboShortNameCases(name);
    forall i | 0 <= i < |KboCodeTable| ensures !Contains(name, KboCodeTable[i].0) {
      ContainsBasics(name, KboCodeTable[i].0);
    }
  }

  /** A name that merely contains a key gets the code of the earliest such key in table order. */
  lemma ContainedKeyDecides(name: string, i: nat)
    requires ExactKeyIndex(KboCodeTable, name).None?
    requires i < |KboCodeTable| && Contains(name, KboCodeTable[i].0)
    requires forall j :: 0 <= j < i ==> !Contains(name, KboCodeTable[j].0)
    ensures KboShortName(name) == Some(KboCodeTable[i].1)
  {
    var r := FirstContainedKeyIndex(KboCodeTable, name);
    assert r.Some?;
    assert r.value == i;
  }

  // ---------------------------------------------------------------------------
  // The simplifier: NFD, drop combining marks, keep [a-zA-Z0-9가-힣], lower case
  // ---------------------------------------------------------------------------

  predicate IsHangulSyllable(c: char) {
    '\U{AC00}' <= c <= '\U{D7A3}'
  }

  predicate IsCombiningMark(c: char) {
    '\U{300}' <= c <= '\U{36F}'
  }

  /** The character class the simplifier keeps: ASCII letters and digits, and 가 to 힣. */
  predicate IsNameChar(c: char) {
    ('a' <= c <= 'z') || ('A' <= c <= 'Z') || ('0' <= c <= '9') || IsHangulSyllable(c)
  }

  /**
   * The canonical decomposition of a Hangul syllable into its leading consonant,
   * vowel and optional trailing consonant (the conjoining jamo U+1100 to U+11FF).
   */
  function HangulJamo(c: char): (r: string)
    requires IsHangulSyllable(c)
    ensures 2 <= |r| <= 3
    ensures forall k :: 0 <= k < |r| ==> '\U{1100}' <= r[k] <= '\U{11FF}'
  {
    var index := c as int - 0xAC00;
    var lead := (0x1100 + index / 588) as char;
    var vowel := (0x1161 + (index % 588) / 28) as char;
    if index % 28 == 0 then [lead, vowel]
    else [lead, vowel, (0x11A7 + index % 28) as char]
  }

  /** Applies `f` to every character and concatenates the pieces. */
  function FlatMap(s: string, f: char -> string): string
  {
    if s == [] then [] else f(s[0]) + FlatMap(s[1..], f)
  }

  lemma {:induction false} FlatMapConcat(a: string, b: string, f: char -> string)
    ensures FlatMap(a + b, f) == FlatMap(a, f) + FlatMap(b, f)
    decreases |a|
  {
    if a == [] {
      assert a + b == b;
    } else {
      assert (a + b)[0] == a[0] && (a + b)[1..] == a[1..] + b;
      FlatMapConcat(a[1..], b, f);
    }
  }

  /**
   * Canonical decomposition of one character. ASCII has no decomposition and
   * Hangul syllables decompose algorithmically; every other character is
   * decomposed by `other`, the Unicode data this model does not carry.
   */
  function NfdChar(other: char -> string, c: char): string {
    if c < '\U{80}' then [c]
    else if IsHangulSyllable(c) then HangulJamo(c)
    else other(c)
  }

  /** The decomposition followed by canonical composition of Hangul: syllables stay whole. */
  function NfdKeepingHangulChar(other: char -> string, c: char): string {
    if c < '\U{80}' || IsHangulSyllable(c) then [c] else other(c)
  }

  function DropMark(c: char): string {
    if IsCombiningMark(c) then [] else [c]
  }

  function KeepNameChar(c: char): string {
    if IsNameChar(c) then [c] else []
  }

  function DropCombiningMarks(s: string): string {
    FlatMap(s, DropMark)
  }

  function KeepNameChars(s: string): string {
    FlatMap(s, KeepNameChar)
  }

  /** The three steps after the decomposition. */
  function Squash(s: string): string {
    Lower(KeepNameChars(DropCombiningMarks(s)))
  }

  /** The simplifier as written: `normalize("NFD")` splits every Hangul syllable into jamo. */
  function SimplifyAsWritten(other: char -> string, s: string): string {
    Squash(FlatMap(s, c => NfdChar(other, c)))
  }

  /** The simplifier as intended: accents go, Hangul syllables stay. */
  function Simplify(other: char -> string, s: string): string {
    Squash(FlatMap(s, c => NfdKeepingHangulChar(other, c)))
  }

  lemma SquashConcat(a: string, b: string)
    ensures Squash(a + b) == Squash(a) + Squash(b)
  {
    FlatMapConcat(a, b, DropMark);
    FlatMapConcat(DropCombiningMarks(a), DropCombiningMarks(b), KeepNameChar);
    LowerConcat(KeepNameChars(DropCombiningMarks(a)), KeepNameChars(DropCombiningMarks(b)));
  }

  /** What squashing leaves of one character: itself, folded, when it is a name character. */
  lemma SquashChar(c: char)
    ensures Squash([c]) == if IsNameChar(c) then [LowerChar(c)] else []
  {
    var f := DropMark;
    var g := KeepNameChar;
    assert [c][1..] == [];
    assert DropCombiningMarks([c]) == f(c) + FlatMap([], f);
    if IsNameChar(c) {
      assert KeepNameChars([c]) == g(c) + FlatMap([], g);
    } else {
      assert KeepNameChars([]) == [];
    }
  }

  /** No conjoining jamo is a name character, so a decomposed syllable squashes to nothing. */
  lemma SquashJamo(c: char)
    requires IsHangulSyllable(c)
    ensures Squash(HangulJamo(c)) == []
  {
    var j := HangulJamo(c);
    SquashChar(j[0]);
    SquashChar(j[1]);
    assert j == [j[0]] + [j[1]] + j[2..];
    SquashConcat([j[0]], [j[1]]);
    SquashConcat([j[0]] + [j[1]], j[2..]);
    if |j| == 3 {
      SquashChar(j[2]);
      assert j[2..] == [j[2]];
    } else {
      assert j[2..] == [];
    }
  }

  predicate HangulOrAscii(s: string) {
    forall k :: 0 <= k < |s| ==> IsHangulSyllable(s[k]) || s[k] < '\U{80}'
  }

  /** The characters of `s` that are not Hangul syllables. */
  function WithoutHangul(s: string): string {
    FlatMap(s, c => if IsHangulSyllable(c) then [] else [c])
  }

  /** As written, every Hangul syllable is lost: only the ASCII part of a name survives. */
  lemma {:induction false} SimplifyAsWrittenDropsHangul(other: char -> string, s: string)
    requires HangulOrAscii(s)
    ensures SimplifyAsWritten(other, s) == Squash(WithoutHangul(s))
    decreases |s|
  {
    if s != [] {
      var c := s[0];
      SimplifyAsWrittenDropsHangul(other, s[1..]);
      var head := NfdChar(other, c);
      var keep := if IsHangulSyllable(c) then [] else [c];
      SquashConcat(head, FlatMap(s[1..], c => NfdChar(other, c)));
      SquashConcat(keep, WithoutHangul(s[1..]));
      if IsHangulSyllable(c) {
        SquashJamo(c);
      }
    }
  }

  /** As intended, a name of Hangul syllables and ASCII squashes as it stands. */
  lemma {:induction false} SimplifyKeepsHangul(other: char -> string, s: string)
    requires HangulOrAscii(s)
    ensures Simplify(other, s) == Squash(s)
    decreases |s|
  {
    if s != [] {
      SimplifyKeepsHangul(other, s[1..]);
      SquashConcat([s[0]], FlatMap(s[1..], c => NfdKeepingHangulChar(other, c)));
      assert s == [s[0]] + s[1..];
      SquashConcat([s[0]], s[1..]);
    }
  }

  /** A name written only in Hangul (and spaces) simplifies, as written, to the empty string. */
  lemma AllHangulNameVanishes(other: char -> string, s: string)
    requires forall k :: 0 <= k < |s| ==> IsHangulSyllable(s[k]) || s[k] == ' '
    ensures SimplifyAsWritten(other, s) == []
  {
    SimplifyAsWrittenDropsHangul(other, s);
    WithoutHangulOfHangulAndSpaces(s);
    SquashSpaces(WithoutHangul(s));
  }

  lemma {:induction false} WithoutHangulOfHangulAndSpaces(s: string)
    requires forall k :: 0 <= k < |s| ==> IsHangulSyllable(s[k]) || s[k] == ' '
    ensures forall k :: 0 <= k < |WithoutHangul(s)| ==> WithoutHangul(s)[k] == ' '
    decreases |s|
  {
    if s != [] {
      WithoutHangulOfHangulAndSpaces(s[1..]);
      var f := c => if IsHangulSyllable(c) then [] else [c];
      assert WithoutHangul(s) == f(s[0]) + WithoutHangul(s[1..]);
    }
  }

  lemma {:induction false} SquashSpaces(s: string)
    requires forall k :: 0 <= k < |s| ==> s[k] == ' '
    ensures Squash(s) == []
    decreases |s|
  {
    if s != [] {
      assert s == [s[0]] + s[1..];
      SquashConcat([s[0]], s[1..]);
      SquashChar(s[0]);
      SquashSpaces(s[1..]);
    }
  }

  /** Squashing keeps ASCII text ASCII. */
  lemma {:induction false} SquashAscii(s: string)
    requires forall k :: 0 <= k < |s| ==> s[k] < '\U{80}'
    ensures forall k :: 0 <= k < |Squash(s)| ==> Squash(s)[k] < '\U{80}'
    decreases |s|
  {
    if s != [] {
      assert s == [s[0]] + s[1..];
      SquashConcat([s[0]], s[1..]);
      SquashChar(s[0]);
      SquashAscii(s[1..]);
    }
  }

  /** Squashing leaves a string of Hangul syllables as it is. */
  lemma {:induction false} SquashHangul(s: string)
    requires forall k :: 0 <= k < |s| ==> IsHangulSyllable(s[k])
    ensures Squash(s) == s
    decreases |s|
  {
    if s != [] {
      assert s == [s[0]] + s[1..];
      SquashConcat([s[0]], s[1..]);
      SquashChar(s[0]);
      SquashHangul(s[1..]);
    }
  }

  /** A name character survives squashing, so the result is not empty. */
  lemma {:induction false} SquashKeepsNameChar(s: string, k: nat)
    requires k < |s| && IsNameChar(s[k])
    ensures |Squash(s)| > 0
    decreases |s|
  {
    assert s == [s[0]] + s[1..];
    SquashConcat([s[0]], s[1..]);
    SquashChar(s[0]);
    if k > 0 {
      SquashKeepsNameChar(s[1..], k - 1);
    }
  }

  /** As intended, an ASCII name with a letter or digit simplifies to a non-empty ASCII string. */
  lemma SimplifiedAsciiName(other: char -> string, s: string, k: nat)
    requires forall i :: 0 <= i < |s| ==> s[i] < '\U{80}'
    requires k < |s| && IsNameChar(s[k])
    ensures |Simplify(other, s)| > 0
    ensures forall i :: 0 <= i < |Simplify(other, s)| ==> Simplify(other, s)[i] < '\U{80}'
  {
    SimplifyKeepsHangul(other, s);
    SquashAscii(s);
    SquashKeepsNameChar(s, k);
  }

  /** As intended, a name of Hangul syllables simplifies to itself. */
  lemma SimplifiedHangulName(other: char -> string, s: string)
    requires forall i :: 0 <= i < |s| ==> IsHangulSyllable(s[i])
    ensures Simplify(other, s) == s
  {
    SimplifyKeepsHangul(other, s);
    SquashHangul(s);
  }
}
