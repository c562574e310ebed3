/**
 * Text handling shared by the RTSP reader and negotiator: leftmost literal search, the
 * "key, optional white space, longest run" searches that the code writes as regular
 * expressions, splitting on a separator, and decimal numbers.
 *
 * One `char` stands for one byte of the wire (or one ASCII character of decoded text).
 */
module Text {
  import opened Prelude

  // ----- character classes -----

  predicate IsDigit(c: char) { '0' <= c <= '9' }

  /** White space of a bytes pattern. */
  predicate IsByteSpace(c: char) { c == ' ' || '\t' <= c <= '\r' }

  /** White space of a str pattern, and of str.strip, on ASCII text. */
  predicate IsTextSpace(c: char) { IsByteSpace(c) || '\U{1C}' <= c <= '\U{1F}' }

  /** The class [\w.] on ASCII text. */
  predicate IsIdChar(c: char) {
    IsDigit(c) || 'a' <= c <= 'z' || 'A' <= c <= 'Z' || c == '_' || c == '.'
  }

  function Lower(c: char): char {
    if 'A' <= c <= 'Z' then c - 'A' + 'a' else c
  }

  predicate IsAscii(s: string) { forall i | 0 <= i < |s| :: s[i] < '\U{80}' }

  // ----- leftmost literal search -----

  predicate MatchAt(s: string, i: int, pat: string) {
    0 <= i <= |s| - |pat| && s[i..i + |pat|] == pat
  }

  /** The leftmost occurrence of `pat` at or after `from`. */
  function FindFrom(s: string, pat: string, from: nat): (r: Option<nat>)
    ensures r.Some? ==> from <= r.value <= |s| - |pat|
    decreases |s| - from
  {
    if MatchAt(s, from, pat) then Some(from)
    else if from >= |s| then None
    else FindFrom(s, pat, from + 1)
  }

  function Find(s: string, pat: string): (r: Option<nat>)
    ensures r.Some? ==> r.value <= |s| - |pat|
  {
    FindFrom(s, pat, 0)
  }

  lemma {:induction false} FindFromSpec(s: string, pat: string, from: nat)
    ensures var r := FindFrom(s, pat, from);
            && (r.Some? ==> MatchAt(s, r.value, pat))
            && forall j :: from <= j && (r.Some? ==> j < r.value) ==> !MatchAt(s, j, pat)
    decreases |s| - from
  {
    if !MatchAt(s, from, pat) && from < |s| {
      FindFromSpec(s, pat, from + 1);
    }
  }

  /** Find returns the first occurrence, and None exactly when there is none. */
  lemma FindSpec(s: string, pat: string)
    ensures var r := Find(s, pat);
            && (r.Some? ==> MatchAt(s, r.value, pat))
            && forall j :: (r.Some? ==> j < r.value) ==> !MatchAt(s, j, pat)
  {
    FindFromSpec(s, pat, 0);
  }

  predicate Contains(s: string, pat: string) { Find(s, pat).Some? }

  lemma FindIs(s: string, pat: string, p: nat)
    requires MatchAt(s, p, pat)
    requires forall j | 0 <= j < p :: !MatchAt(s, j, pat)
    ensures Find(s, pat) == Some(p)
  {
    FindSpec(s, pat);
  }

  lemma MatchExtend(s: string, more: string, i: int, pat: string)
    requires i + |pat| <= |s|
    ensures MatchAt(s + more, i, pat) <==> MatchAt(s, i, pat)
  {
    if 0 <= i {
      assert (s + more)[i..i + |pat|] == s[i..i + |pat|];
    }
  }

  /** More input never moves an occurrence already found. */
  lemma FindExtend(s: string, more: string, pat: string)
    requires Find(s, pat).Some?
    ensures Find(s + more, pat) == Find(s, pat)
  {
    var p := Find(s, pat).value;
    FindSpec(s, pat);
    MatchExtend(s, more, p, pat);
    forall j | 0 <= j < p ensures !MatchAt(s + more, j, pat) {
      MatchExtend(s, more, j, pat);
    }
    FindIs(s + more, pat, p);
  }

  // ----- field searches -----

  /** What the value of a field is made of. */
  datatype Body = Digits | IdChars

  /**
   * A regular expression of the shape  key \s* (class+):  `fold` ignores case, `spaces`
   * says whether \s* is present, `wide` whether \s has its text rather than bytes meaning.
   * The three classes are disjoint, so a match takes all the white space and then the
   * longest run, and there is nothing to backtrack into.
   */
  datatype FieldPattern = FieldPattern(key: string, fold: bool, spaces: bool, wide: bool, body: Body)

  predicate InBody(c: char, b: Body) {
    match b
    case Digits => IsDigit(c)
    case IdChars => IsIdChar(c)
  }

  predicate IsSkipped(c: char, p: FieldPattern) {
    p.spaces && if p.wide then IsTextSpace(c) else IsByteSpace(c)
  }

  predicate KeyAt(s: string, i: int, p: FieldPattern) {
    && 0 <= i <= |s| - |p.key|
    && forall k | 0 <= k < |p.key| ::
         if p.fold then Lower(s[i + k]) == Lower(p.key[k]) else s[i + k] == p.key[k]
  }

  /** The first position at or after `i` that \s* does not take. */
  function SkipSpaces(s: string, i: nat, p: FieldPattern): (r: nat)
    requires i <= |s|
    ensures i <= r <= |s|
    ensures forall k | i <= k < r :: IsSkipped(s[k], p)
    ensures r < |s| ==> !IsSkipped(s[r], p)
    decreases |s| - i
  {
    if i < |s| && IsSkipped(s[i], p) then SkipSpaces(s, i + 1, p) else i
  }

  /** The end of the longest run of `b` characters that starts at `i`. */
  function RunEnd(s: string, i: nat, b: Body): (r: nat)
    requires i <= |s|
    ensures i <= r <= |s|
    ensures forall k | i <= k < r :: InBody(s[k], b)
    ensures r < |s| ==> !InBody(s[r], b)
    decreases |s| - i
  {
    if i < |s| && InBody(s[i], b) then RunEnd(s, i + 1, b) else i
  }

  predicate FieldAt(s: string, i: int, p: FieldPattern) {
    && KeyAt(s, i, p)
    && var v := SkipSpaces(s, i + |p.key|, p);
       v < |s| && InBody(s[v], p.body)
  }

  function SearchFrom(s: string, p: FieldPattern, from: nat): (r: Option<nat>)
    ensures r.Some? ==> FieldAt(s, r.value, p)
    decreases |s| - from
  {
    if FieldAt(s, from, p) then Some(from)
    else if from >= |s| then None
    else SearchFrom(s, p, from + 1)
  }

  predicate AllBody(s: string, b: Body) { s != "" && forall k | 0 <= k < |s| :: InBody(s[k], b) }

  /** The text captured at `i`. */
  function FieldValueAt(s: string, i: nat, p: FieldPattern): (r: string)
    requires FieldAt(s, i, p)
    ensures AllBody(r, p.body)
  {
    var v := SkipSpaces(s, i + |p.key|, p);
    s[v..RunEnd(s, v, p.body)]
  }

  /** The text captured by the leftmost match. */
  function Field(s: string, p: FieldPattern): (r: Option<string>)
    ensures r.Some? ==> AllBody(r.value, p.body)
  {
    match SearchFrom(s, p, 0)
    case None => None
    case Some(i) => Some(FieldValueAt(s, i, p))
  }

  lemma {:induction false} SearchFromIs(s: string, p: FieldPattern, from: nat, i: nat)
    requires from <= i && FieldAt(s, i, p)
    requires forall j | from <= j < i :: !FieldAt(s, j, p)
    ensures SearchFrom(s, p, from) == Some(i)
    decreases i - from
  {
    if from < i {
      SearchFromIs(s, p, from + 1, i);
    }
  }

  lemma FieldIs(s: string, p: FieldPattern, i: nat)
    requires FieldAt(s, i, p)
    requires forall j | 0 <= j < i :: !FieldAt(s, j, p)
    ensures Field(s, p) == Some(FieldValueAt(s, i, p))
  {
    SearchFromIs(s, p, 0, i);
  }

  lemma {:induction false} SearchFromNone(s: string, p: FieldPattern, from: nat)
    ensures SearchFrom(s, p, from).None? <==> forall j | from <= j :: !FieldAt(s, j, p)
    decreases |s| - from
  {
    if !FieldAt(s, from, p) && from < |s| {
      SearchFromNone(s, p, from + 1);
    }
  }

  /** A search fails exactly when the pattern matches nowhere. */
  lemma FieldNone(s: string, p: FieldPattern)
    ensures Field(s, p).None? <==> forall j: nat :: !FieldAt(s, j, p)
  {
    SearchFromNone(s, p, 0);
  }

  /** A value written after the key and one run of white space, and not continued, is captured whole. */
  lemma FieldValueIs(pre: string, key: string, gap: string, value: string, post: string, p: FieldPattern)
    requires |key| == |p.key| && KeyAt(key, 0, p)
    requires forall k | 0 <= k < |gap| :: IsSkipped(gap[k], p)
    requires AllBody(value, p.body) && !IsSkipped(value[0], p)
    requires post == "" || !InBody(post[0], p.body)
    ensures var s := pre + key + gap + value + post;
            FieldAt(s, |pre|, p) && FieldValueAt(s, |pre|, p) == value
  {
    var s := pre + key + gap + value + post;
    var g := |pre| + |key|;
    assert forall k | g <= k < g + |gap| :: s[k] == gap[k - g];
    assert forall k | g + |gap| <= k < g + |gap| + |value| :: s[k] == value[k - g - |gap|];
    assert s[g + |gap|] == value[0];
    var v := SkipSpaces(s, g, p);
    assert v == g + |gap|;
    if post != "" {
      assert s[v + |value|] == post[0];
    }
    var e := RunEnd(s, v, p.body);
    assert e == v + |value|;
    assert s[v..e] == value;
  }

  /** The first value after a key, written in any way the pattern admits, is the one a search captures. */
  lemma FirstFieldIs(pre: string, key: string, gap: string, value: string, post: string, p: FieldPattern)
    requires |key| == |p.key| && KeyAt(key, 0, p)
    requires forall k | 0 <= k < |gap| :: IsSkipped(gap[k], p)
    requires AllBody(value, p.body) && !IsSkipped(value[0], p)
    requires post == "" || !InBody(post[0], p.body)
    requires forall j | 0 <= j < |pre| :: !KeyAt(pre + key + gap + value + post, j, p)
    ensures Field(pre + key + gap + value + post, p) == Some(value)
  {
    var s := pre + key + gap + value + post;
    FieldValueIs(pre, key, gap, value, post, p);
    forall j | 0 <= j < |pre| ensures !FieldAt(s, j, p) {
      assert !KeyAt(s, j, p);
    }
    hide FieldAt, Field, KeyAt;
    FieldIs(s, p, |pre|);
  }

  // ----- literals in any case of letters -----

  /** `lower` stands at position i, each of its letters in either case. */
  predicate AnyCaseAt(s: string, i: int, lower: string) {
    && 0 <= i <= |s| - |lower|
    && forall k | 0 <= k < |lower| ::
         s[i + k] == lower[k] || ('a' <= lower[k] <= 'z' && s[i + k] == lower[k] - 'a' + 'A')
  }

  /** What a pattern that ignores case looks for. */
  lemma FoldedKey(s: string, i: int, p: FieldPattern, lower: string)
    requires p.fold && |p.key| == |lower|
    requires forall k | 0 <= k < |lower| :: Lower(p.key[k]) == lower[k] && !('A' <= lower[k] <= 'Z')
    ensures KeyAt(s, i, p) <==> AnyCaseAt(s, i, lower)
  {
    if 0 <= i <= |s| - |lower| {
      forall k | 0 <= k < |lower|
        ensures Lower(s[i + k]) == Lower(p.key[k]) <==>
                s[i + k] == lower[k] || ('a' <= lower[k] <= 'z' && s[i + k] == lower[k] - 'a' + 'A')
      {
        LetterCases(s[i + k], lower[k]);
      }
    }
  }

  lemma LetterCases(c: char, l: char)
    requires !('A' <= l <= 'Z')
    ensures Lower(c) == l <==> c == l || ('a' <= l <= 'z' && c == l - 'a' + 'A')
  {
  }

  /** What a pattern that does not looks for. */
  lemma PlainKey(s: string, i: int, p: FieldPattern)
    requires !p.fold
    ensures KeyAt(s, i, p) <==> MatchAt(s, i, p.key)
  {
    if 0 <= i <= |s| - |p.key| {
      var part := s[i..i + |p.key|];
      forall k | 0 <= k < |p.key| ensures s[i + k] == p.key[k] <==> part[k] == p.key[k] {
      }
    }
  }

  lemma OwnKey(p: FieldPattern)
    ensures KeyAt(p.key, 0, p)
  {
  }

  /** A literal occurs in a text exactly when it stands somewhere in it. */
  lemma ContainsIff(s: string, pat: string)
    ensures Contains(s, pat) <==> exists i :: MatchAt(s, i, pat)
  {
    FindSpec(s, pat);
  }

  lemma ContainsAt(pre: string, pat: string, post: string)
    ensures Contains(pre + pat + post, pat)
  {
    var s := pre + pat + post;
    assert s[|pre|..|pre| + |pat|] == pat;
    assert MatchAt(s, |pre|, pat);
    FindSpec(s, pat);
  }

  // ----- splitting -----

  /** Every piece between occurrences of `sep`, found from the left. */
  function Split(s: string, sep: string): (r: seq<string>)
    requires sep != ""
    ensures |r| >= 1
  {
    match Find(s, sep)
    case None => [s]
    case Some(i) => [s[..i]] + Split(s[i + |sep|..], sep)
  }

  function Join(parts: seq<string>, sep: string): (r: string)
  {
    if parts == [] then ""
    else if |parts| == 1 then parts[0]
    else parts[0] + sep + Join(parts[1..], sep)
  }

  lemma CutAt(s: string, i: nat, pat: string)
    requires MatchAt(s, i, pat)
    ensures s == s[..i] + pat + s[i + |pat|..]
  {
  }

  lemma JoinCons(head: string, rest: seq<string>, sep: string)
    requires rest != []
    ensures Join([head] + rest, sep) == head + sep + Join(rest, sep)
  {
    assert ([head] + rest)[1..] == rest;
  }

  /** Splitting loses nothing: the pieces and separators rebuild the text. */
  lemma {:induction false} SplitJoin(s: string, sep: string)
    requires sep != ""
    ensures Join(Split(s, sep), sep) == s
    decreases |s|
  {
    var f := Find(s, sep);
    if f.Some? {
      var rest := s[f.value + |sep|..];
      SplitJoin(rest, sep);
      FindSpec(s, sep);
      JoinCons(s[..f.value], Split(rest, sep), sep);
      CutAt(s, f.value, sep);
    }
  }

  lemma PieceIsClean(s: string, sep: string, i: nat)
    requires sep != "" && Find(s, sep) == Some(i)
    ensures !Contains(s[..i], sep)
  {
    FindSpec(s, sep);
    FindSpec(s[..i], sep);
    forall j | 0 <= j <= i - |sep| ensures !MatchAt(s[..i], j, sep) {
      assert s[..i][j..j + |sep|] == s[j..j + |sep|];
      assert !MatchAt(s, j, sep);
    }
  }

  /** No piece still holds a separator. */
  lemma {:induction false} SplitIsClean(s: string, sep: string)
    requires sep != ""
    ensures forall k | 0 <= k < |Split(s, sep)| :: !Contains(Split(s, sep)[k], sep)
    decreases |s|
  {
    var f := Find(s, sep);
    if f.Some? {
      SplitIsClean(s[f.value + |sep|..], sep);
      PieceIsClean(s, sep, f.value);
    }
  }

  // ----- decimal numbers -----

  /** int() refuses a longer run of digits (CPython's default conversion limit). */
  const MAX_INT_DIGITS := 4300

  function DigitValue(c: char): (r: nat)
    requires IsDigit(c)
    ensures r < 10
  {
    (c - '0') as int
  }

  /** The value of a run of digits. */
  function ParseNat(s: string): nat
    requires AllBody(s, Digits)
  {
    var last := DigitValue(s[|s| - 1]);
    if |s| == 1 then last else 10 * ParseNat(s[..|s| - 1]) + last
  }

  function DigitChar(d: nat): (c: char)
    requires d < 10
    ensures IsDigit(c) && DigitValue(c) == d
  {
    '0' + (d as char)
  }

  function Decimal(n: nat): (r: string)
    ensures AllBody(r, Digits)
  {
    if n < 10 then [DigitChar(n)] else Decimal(n / 10) + [DigitChar(n % 10)]
  }

  /** Printing a number and reading it back. */
  lemma {:induction false} ParseDecimal(n: nat)
    ensures ParseNat(Decimal(n)) == n
  {
    if n >= 10 {
      var d := Decimal(n);
      assert d[..|d| - 1] == Decimal(n / 10);
      ParseDecimal(n / 10);
    }
  }
}
