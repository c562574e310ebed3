/** castd/config.py: the key = value room configuration, on ASCII text. */
module Config {
  import opened Prelude
  import opened Text

  // ----- lines -----

  /** The line boundaries of str.splitlines on ASCII text. */
  predicate IsBreak(c: char) { '\n' <= c <= '\r' || '\U{1C}' <= c <= '\U{1E}' }

  /** The length of the text before the first boundary. */
  function LineLength(s: string): (n: nat)
    ensures n <= |s|
  {
    if s == "" || IsBreak(s[0]) then 0 else 1 + LineLength(s[1..])
  }

  function SplitLines(s: string): (r: seq<string>)
    decreases |s|
  {
    if s == "" then []
    else
      var n := LineLength(s);
      if n == |s| then [s]
      else
        var width := if s[n] == '\r' && n + 1 < |s| && s[n + 1] == '\n' then 2 else 1;
        [s[..n]] + SplitLines(s[n + width..])
  }

  function StripLeft(s: string): (r: string)
    ensures |r| <= |s|
  {
    if s != "" && IsTextSpace(s[0]) then StripLeft(s[1..]) else s
  }

  function StripRight(s: string): (r: string)
    ensures |r| <= |s|
  {
    if s != "" && IsTextSpace(s[|s| - 1]) then StripRight(s[..|s| - 1]) else s
  }

  function Strip(s: string): string { StripRight(StripLeft(s)) }

  // ----- key = value -----

  predicate IsNameStart(c: char) { 'a' <= c <= 'z' || 'A' <= c <= 'Z' || c == '_' }

  predicate IsNameChar(c: char) { IsNameStart(c) || IsDigit(c) }

  /** The length of the longest run of name characters. */
  function NameLength(s: string): (n: nat)
    ensures n <= |s|
  {
    if s == "" || !IsNameChar(s[0]) then 0 else 1 + NameLength(s[1..])
  }

  /** The key and value of a stripped line; None if the pattern does not match. */
  function KeyValue(line: string): (r: Option<(string, string)>)
  {
    var n := NameLength(line);
    if n == 0 || !IsNameStart(line[0]) then None
    else
      var rest := StripLeft(line[n..]);
      if rest == "" || rest[0] != '=' then None else Some((line[..n], Strip(rest[1..])))
  }

  // ----- values -----

  datatype RoomConfig = RoomConfig(roomName: string, wpsPin: string, passphrase: string, channel: int)

  datatype ConfigError =
    | CannotParse(lineno: nat, line: string)
    | MissingKeys(keys: seq<string>)
    | BadRoomName | PinNotEightDigits | BadPinChecksum(correct: nat) | BadPassphrase
    | ChannelNotInteger | ChannelNotAllowed

  datatype Result<+T> = Ok(value: T) | Err(error: ConfigError)

  function WpsPinChecksum(n: nat): (d: nat)
    ensures d < 10
  {
    var accum := 3 * (n / 1000000 % 10) + n / 100000 % 10 + 3 * (n / 10000 % 10) + n / 1000 % 10
                 + 3 * (n / 100 % 10) + n / 10 % 10 + 3 * (n % 10);
    (10 - accum % 10) % 10
  }

  predicate IsPinShape(pin: string) { |pin| == 8 && AllBody(pin, Digits) }

  predicate IsValidWpsPin(pin: string) {
    IsPinShape(pin) && WpsPinChecksum(ParseNat(pin[..7])) == DigitValue(pin[7])
  }

  /** Digits, with single underscores allowed between them. */
  predicate IsIntBody(s: string) {
    && s != "" && IsDigit(s[0]) && IsDigit(s[|s| - 1])
    && (forall k | 0 <= k < |s| :: IsDigit(s[k]) || s[k] == '_')
    && forall k | 0 <= k < |s| - 1 :: IsDigit(s[k]) || IsDigit(s[k + 1])
  }

  function DropUnderscores(s: string): (r: string)
    requires forall k | 0 <= k < |s| :: IsDigit(s[k]) || s[k] == '_'
    ensures forall k | 0 <= k < |r| :: IsDigit(r[k])
    ensures s != "" && IsDigit(s[0]) ==> r != ""
  {
    if s == "" then "" else (if s[0] == '_' then "" else [s[0]]) + DropUnderscores(s[1..])
  }

  /** int(s), for a value with no outer white space; None stands for the ValueError. */
  function PyInt(s: string): Option<int> {
    var signed := s != "" && (s[0] == '+' || s[0] == '-');
    var body := if signed then s[1..] else s;
    if !IsIntBody(body) then None
    else
      var digits := DropUnderscores(body);
      if |digits| > MAX_INT_DIGITS then None
      else
        var n: int := DigitsOf(digits);
        Some(if signed && s[0] == '-' then -n else n)
  }

  function DigitsOf(s: string): nat
    requires s != "" && forall k | 0 <= k < |s| :: IsDigit(s[k])
  {
    assert forall k | 0 <= k < |s| :: InBody(s[k], Digits);
    ParseNat(s)
  }

  const REQUIRED := ["room_name", "wps_pin", "passphrase", "channel"]

  function Missing(values: map<string, string>, keys: seq<string>): (r: seq<string>)
    ensures r == [] <==> forall k | 0 <= k < |keys| :: keys[k] in values
    ensures forall key :: key in r <==> key in keys && key !in values
  {
    if keys == [] then []
    else (if keys[0] in values then [] else [keys[0]]) + Missing(values, keys[1..])
  }

  predicate IsAllowedChannel(c: int) { c == 36 || c == 40 || c == 44 || c == 48 }

  /** The checks on the collected values, in order. */
  function Validate(values: map<string, string>): Result<RoomConfig> {
    if Missing(values, REQUIRED) != [] then Err(MissingKeys(Missing(values, REQUIRED)))
    else
      assert REQUIRED[0] in values && REQUIRED[1] in values && REQUIRED[2] in values && REQUIRED[3] in values;
      var name, pin, pass := values["room_name"], values["wps_pin"], values["passphrase"];
      if name == "" || |name| > 32 then Err(BadRoomName)
      else if !IsPinShape(pin) then Err(PinNotEightDigits)
      else if !IsValidWpsPin(pin) then Err(BadPinChecksum(WpsPinChecksum(ParseNat(pin[..7]))))
      else if !(8 <= |pass| <= 63) then Err(BadPassphrase)
      else
        match PyInt(values["channel"])
        case None => Err(ChannelNotInteger)
        case Some(c) => if IsAllowedChannel(c) then Ok(RoomConfig(name, pin, pass, c)) else Err(ChannelNotAllowed)
  }

  /** The values after reading lines from number `lineno` on. */
  function ReadLines(lines: seq<string>, lineno: nat, values: map<string, string>): (r: Result<map<string, string>>)
    decreases |lines|
  {
    if lines == [] then Ok(values)
    else
      var line := Strip(lines[0]);
      if line == "" || line[0] == '#' then ReadLines(lines[1..], lineno + 1, values)
      else match KeyValue(line)
           case None => Err(CannotParse(lineno, lines[0]))
           case Some((k, v)) => ReadLines(lines[1..], lineno + 1, values[k := v])
  }

  function Parse(text: string): Result<RoomConfig> {
    match ReadLines(SplitLines(text), 1, map[])
    case Err(e) => Err(e)
    case Ok(values) => Validate(values)
  }

  method ParseRoomConfig(text: string) returns (r: Result<RoomConfig>)
    ensures r == Parse(text)
  {
    hide SplitLines, Strip, KeyValue, Validate;
    var values: map<string, string> := map[];
    var lines := SplitLines(text);
    ghost var whole := ReadLines(lines, 1, values);
    for i := 0 to |lines|
      invariant ReadLines(lines[i..], i + 1, values) == whole
    {
      assert lines[i..][1..] == lines[i + 1..];
      var line := Strip(lines[i]);
      if line == "" || line[0] == '#' {
        continue;
      }
      var m := KeyValue(line);
      if m.None? {
        return Err(CannotParse(i + 1, lines[i]));
      }
      values := values[m.value.0 := m.value.1];
    }
    r := Validate(values);
  }

  // ----- what a file means -----

  /** What a person may write on a line. */
  datatype Item =
    | Note(indent: string, comment: string)  // blank, or a comment
    | Setting(indent: string, key: string, gap1: string, gap2: string, value: string, trail: string)

  /** White space within a line. */
  predicate IsBlank(c: char) { c == ' ' || c == '\t' || c == '\U{1F}' }

  predicate IsGap(s: string) { forall k | 0 <= k < |s| :: IsBlank(s[k]) }

  predicate OneLine(s: string) {
    forall k | 0 <= k < |s| :: !('\n' <= s[k] <= '\r') && !('\U{1C}' <= s[k] <= '\U{1E}')
  }

  /** No line break, and no white space at either end. */
  predicate IsTidy(s: string) {
    OneLine(s) && (s != "" ==> !IsBlank(s[0]) && !IsBlank(s[|s| - 1]))
  }

  predicate IsName(s: string) {
    && s != "" && !('0' <= s[0] <= '9')
    && forall k | 0 <= k < |s| :: '0' <= s[k] <= '9' || 'a' <= s[k] <= 'z' || 'A' <= s[k] <= 'Z' || s[k] == '_'
  }

  predicate WellWritten(it: Item) {
    match it
    case Note(indent, comment) => IsGap(indent) && OneLine(comment) && (comment != "" ==> comment[0] == '#')
    case Setting(indent, key, gap1, gap2, value, trail) =>
      IsGap(indent) && IsName(key) && IsGap(gap1) && IsGap(gap2) && IsTidy(value) && IsGap(trail)
  }

  predicate AllWellWritten(items: seq<Item>) { forall k | 0 <= k < |items| :: WellWritten(items[k]) }

  function Line(it: Item): string {
    match it
    case Note(indent, comment) => indent + comment
    case Setting(indent, key, gap1, gap2, value, trail) => indent + key + gap1 + "=" + gap2 + value + trail
  }

  /** What may end the lines of a file. */
  predicate IsLineEnd(end: string) {
    end == "\n" || end == "\r" || end == "\r\n" || end == "\U{0B}" || end == "\U{0C}"
    || end == "\U{1C}" || end == "\U{1D}" || end == "\U{1E}"
  }

  /** One line each; `ended` says whether the last one is ended too. */
  function FileText(items: seq<Item>, end: string, ended: bool): string {
    if items == [] then ""
    else Line(items[0]) + (if ended || |items| > 1 then end else "") + FileText(items[1..], end, ended)
  }

  /** Later settings override earlier ones. */
  function Meaning(items: seq<Item>, values: map<string, string>): map<string, string>
    decreases |items|
  {
    if items == [] then values
    else Meaning(items[1..], if items[0].Setting? then values[items[0].key := items[0].value] else values)
  }

  // ----- stripping -----

  lemma {:induction false} StripLeftGap(gap: string, s: string)
    requires forall k | 0 <= k < |gap| :: IsTextSpace(gap[k])
    ensures StripLeft(gap + s) == StripLeft(s)
  {
    if gap == "" {
      assert gap + s == s;
    } else {
      assert (gap + s)[1..] == gap[1..] + s;
      StripLeftGap(gap[1..], s);
    }
  }

  lemma {:induction false} StripRightGap(s: string, gap: string)
    requires forall k | 0 <= k < |gap| :: IsTextSpace(gap[k])
    ensures StripRight(s + gap) == StripRight(s)
  {
    if gap == "" {
      assert s + gap == s;
    } else {
      var n := |gap| - 1;
      assert (s + gap)[..|s + gap| - 1] == s + gap[..n];
      StripRightGap(s, gap[..n]);
    }
  }

  /** Gaps around a text that neither starts nor ends with white space are all that stripping removes. */
  lemma StripAround(before: string, s: string, after: string)
    requires IsGap(before) && IsGap(after)
    requires s != "" ==> !IsTextSpace(s[0]) && !IsTextSpace(s[|s| - 1])
    ensures Strip(before + s + after) == s
  {
    if s == "" {
      assert before + s + after == (before + after) + "";
      StripLeftGap(before + after, "");
    } else {
      assert before + s + after == before + (s + after);
      StripLeftGap(before, s + after);
      assert (s + after)[0] == s[0];
      StripRightGap(s, after);
    }
  }

  lemma {:induction false} NameLengthIs(key: string, rest: string)
    requires forall k | 0 <= k < |key| :: IsNameChar(key[k])
    requires rest == "" || !IsNameChar(rest[0])
    ensures NameLength(key + rest) == |key|
  {
    if key == "" {
      assert key + rest == rest;
    } else {
      assert (key + rest)[1..] == key[1..] + rest;
      NameLengthIs(key[1..], rest);
    }
  }

  /** A line that starts with a name and then an equals sign. */
  lemma KeyValueIs(key: string, rest: string, tail: string)
    requires IsName(key) && rest != "" && !IsNameChar(rest[0])
    requires StripLeft(rest) == tail && tail != "" && tail[0] == '='
    ensures KeyValue(key + rest) == Some((key, Strip(tail[1..])))
  {
    var line := key + rest;
    assert forall k | 0 <= k < |key| :: IsNameChar(key[k]);
    NameLengthIs(key, rest);
    assert line[|key|..] == rest && line[..|key|] == key && line[0] == key[0];
    hide Strip, StripLeft, NameLength;
  }

  lemma GapAndEquals(gap: string, after: string)
    requires IsGap(gap)
    ensures var rest := gap + ("=" + after);
            rest != "" && !IsNameChar(rest[0]) && StripLeft(rest) == "=" + after && ("=" + after)[1..] == after
  {
    StripLeftGap(gap, "=" + after);
    assert (gap + ("=" + after))[0] == if gap == "" then '=' else gap[0];
  }

  /** A stripped setting is read as its key and its value. */
  lemma KeyValueReads(key: string, gap1: string, gap2: string, value: string)
    requires IsName(key) && IsGap(gap1) && IsGap(gap2) && IsTidy(value)
    requires value == "" ==> gap2 == ""
    ensures KeyValue(key + gap1 + "=" + gap2 + value) == Some((key, value))
  {
    GapAndEquals(gap1, gap2 + value);
    EmptyGap();
    StripAround(gap2, value, "");
    hide KeyValue, IsName, IsGap, StripLeft, Strip;
    assert gap2 + value + "" == gap2 + value;
    KeyValueIs(key, gap1 + ("=" + (gap2 + value)), "=" + (gap2 + value));
    Ungroup(key, gap1, gap2, value);
  }

  lemma Ungroup(key: string, gap1: string, gap2: string, value: string)
    ensures key + (gap1 + ("=" + (gap2 + value))) == key + gap1 + "=" + gap2 + value
  {
  }

  lemma SettingStrips(indent: string, key: string, mid: string, trail: string)
    requires IsGap(indent) && IsName(key) && IsGap(trail)
    requires mid != "" && mid[0] == key[0] && !IsTextSpace(mid[|mid| - 1])
    ensures var s := Strip(indent + mid + trail); s == mid && s[0] != '#'
  {
    StripAround(indent, mid, trail);
  }

  /** A setting's line gives its key and value, however it is spaced. */
  lemma LineReads(it: Item)
    requires WellWritten(it) && it.Setting?
    ensures var s := Strip(Line(it)); s != "" && s[0] != '#' && KeyValue(s) == Some((it.key, it.value))
  {
    hide Strip, KeyValue, IsName, IsGap;
    var Setting(indent, key, gap1, gap2, value, trail) := it;
    assert key != "" by { NameNotEmpty(key); }
    if value == "" {
      var mid := key + gap1 + "=";
      GapAppend(gap2, trail);
      assert Line(it) == indent + mid + (gap2 + trail);
      SettingStrips(indent, key, mid, gap2 + trail);
      EmptyGap();
      KeyValueReads(key, gap1, "", "");
      assert mid + "" + "" == mid;
    } else {
      var mid := key + gap1 + "=" + gap2 + value;
      assert Line(it) == indent + mid + trail;
      SettingStrips(indent, key, mid, trail);
      KeyValueReads(key, gap1, gap2, value);
    }
  }

  lemma NameNotEmpty(key: string)
    requires IsName(key)
    ensures key != ""
  {
  }

  /** A note's line is blank or a comment to the loop. */
  lemma NoteReads(it: Item)
    requires WellWritten(it) && it.Note?
    ensures var s := Strip(Line(it)); s == "" || s[0] == '#'
  {
    StripLeftGap(it.indent, it.comment);
    if it.comment != "" {
      StripRightKeepsFirst(it.comment);
    }
  }

  lemma {:induction false} StripRightKeepsFirst(s: string)
    requires s != "" && !IsTextSpace(s[0])
    ensures StripRight(s) != "" && StripRight(s)[0] == s[0]
  {
    if IsTextSpace(s[|s| - 1]) {
      StripRightKeepsFirst(s[..|s| - 1]);
    }
  }

  lemma EmptyGap()
    ensures IsGap("")
  {
  }

  lemma GapAppend(a: string, b: string)
    requires IsGap(a) && IsGap(b)
    ensures IsGap(a + b)
  {
  }

  // ----- splitting into lines -----

  lemma {:induction false} LineLengthIs(line: string, rest: string)
    requires OneLine(line) && (rest == "" || IsBreak(rest[0]))
    ensures LineLength(line + rest) == |line|
  {
    if line == "" {
      assert line + rest == rest;
    } else {
      assert (line + rest)[1..] == line[1..] + rest;
      LineLengthIs(line[1..], rest);
    }
  }

  lemma GapOneLine(a: string, b: string)
    requires OneLine(a) && OneLine(b)
    ensures OneLine(a + b)
  {
  }

  lemma LineIsOneLine(it: Item)
    requires WellWritten(it)
    ensures OneLine(Line(it))
  {
    if it.Setting? {
      GapOneLine(it.indent, it.key);
      GapOneLine(it.indent + it.key, it.gap1);
      GapOneLine(it.indent + it.key + it.gap1, "=");
      GapOneLine(it.indent + it.key + it.gap1 + "=", it.gap2);
      GapOneLine(it.indent + it.key + it.gap1 + "=" + it.gap2, it.value);
      GapOneLine(it.indent + it.key + it.gap1 + "=" + it.gap2 + it.value, it.trail);
    }
  }

  lemma SplitAt(s: string, n: nat, width: nat)
    requires LineLength(s) == n < |s|
    requires width == if s[n] == '\r' && n + 1 < |s| && s[n + 1] == '\n' then 2 else 1
    ensures SplitLines(s) == [s[..n]] + SplitLines(s[n + width..])
  {
    hide LineLength;
    assert s != "" && n != |s|;
  }

  lemma LineEnds(end: string)
    requires IsLineEnd(end)
    ensures end != "" && IsBreak(end[0]) && (end[0] == '\r' ==> end == "\r" || end == "\r\n")
    ensures |end| == if end == "\r\n" then 2 else 1
  {
  }

  lemma AroundEnd(line: string, end: string, rest: string)
    requires end != ""
    ensures var s := line + end + rest;
            && s == line + (end + rest) && |s| == |line| + |end| + |rest|
            && s[|line|] == end[0] == (end + rest)[0]
            && (|end| == 2 ==> s[|line| + 1] == end[1])
            && (|end| == 1 && rest != "" ==> s[|line| + 1] == rest[0])
            && s[..|line|] == line && s[|line| + |end|..] == rest
  {
  }

  lemma SplitFirstLine(line: string, end: string, rest: string)
    requires OneLine(line) && IsLineEnd(end) && (end == "\r" && rest != "" ==> rest[0] != '\n')
    ensures SplitLines(line + end + rest) == [line] + SplitLines(rest)
  {
    hide SplitLines, LineLength, OneLine, IsLineEnd, IsBreak;
    LineEnds(end);
    AroundEnd(line, end, rest);
    LineLengthIs(line, end + rest);
    SplitAt(line + end + rest, |line|, |end|);
  }

  lemma NoStrayNewline(items: seq<Item>, ended: bool)
    requires AllWellWritten(items)
    ensures var s := FileText(items, "\r", ended); s != "" ==> s[0] != '\n'
    decreases |items|
  {
    if items != [] {
      assert WellWritten(items[0]);
      LineIsOneLine(items[0]);
      NoStrayNewline(items[1..], ended);
      var s := FileText(items, "\r", ended);
      if Line(items[0]) != "" {
        assert s[0] == Line(items[0])[0];
      }
    }
  }

  /**
   * What a file means, whatever its comments, blank lines, spacing, order and overridden
   * settings: parsing it checks the values its settings leave behind, and nothing else.
   */
  lemma {:induction false} ReadLinesMeans(
      items: seq<Item>, end: string, ended: bool, lineno: nat, values: map<string, string>)
    requires AllWellWritten(items) && IsLineEnd(end)
    ensures ReadLines(SplitLines(FileText(items, end, ended)), lineno, values) == Ok(Meaning(items, values))
    decreases |items|
  {
    hide Strip, KeyValue, SplitLines;
    SplitNothing();
    if items != [] {
      var it := items[0];
      var values' := if it.Setting? then values[it.key := it.value] else values;
      assert WellWritten(it);
      LineIsOneLine(it);
      ReadLinesMeans(items[1..], end, ended, lineno + 1, values');
      if it.Setting? {
        LineReads(it);
      }
      if ended || |items| > 1 {
        if end == "\r" {
          NoStrayNewline(items[1..], ended);
        }
        SplitFirstLine(Line(it), end, FileText(items[1..], end, ended));
        ReadOne(it, SplitLines(FileText(items[1..], end, ended)), lineno, values);
      } else {
        assert FileText(items, end, ended) == Line(it);
        if Line(it) != "" {
          SplitOneLine(Line(it));
          ReadOne(it, [], lineno, values);
        }
      }
    }
  }

  /** The first of several lines, as the loop treats it. */
  lemma ReadOne(it: Item, rest: seq<string>, lineno: nat, values: map<string, string>)
    requires WellWritten(it)
    ensures ReadLines([Line(it)] + rest, lineno, values) ==
              ReadLines(rest, lineno + 1, if it.Setting? then values[it.key := it.value] else values)
  {
    hide Strip, KeyValue;
    if it.Setting? {
      LineReads(it);
    } else {
      NoteReads(it);
    }
    assert ([Line(it)] + rest)[1..] == rest;
  }

  lemma SplitOneLine(line: string)
    requires OneLine(line) && line != ""
    ensures SplitLines(line) == [line] + []
  {
    assert line + "" == line;
    LineLengthIs(line, "");
  }

  lemma SplitNothing()
    ensures SplitLines("") == []
  {
  }

  lemma ParseMeans(items: seq<Item>, end: string, ended: bool)
    requires AllWellWritten(items) && IsLineEnd(end)
    ensures Parse(FileText(items, end, ended)) == Validate(Meaning(items, map[]))
  {
    hide SplitLines, Validate;
    ReadLinesMeans(items, end, ended, 1, map[]);
  }

  // ----- the line that is not understood -----

  ghost predicate IsNoteLine(raw: string) { exists it: Item :: it.Note? && WellWritten(it) && Line(it) == raw }

  ghost predicate IsSettingLine(raw: string) { exists it: Item :: it.Setting? && WellWritten(it) && Line(it) == raw }

  /** Neither a note nor a setting, however it is spaced. */
  ghost predicate Unreadable(raw: string) { !IsNoteLine(raw) && !IsSettingLine(raw) }

  lemma {:induction false} LeftPart(s: string) returns (gap: string)
    requires OneLine(s)
    ensures s == gap + StripLeft(s) && IsGap(gap)
    ensures StripLeft(s) != "" ==> !IsTextSpace(StripLeft(s)[0])
  {
    gap := "";
    if s != "" && IsTextSpace(s[0]) {
      var more := LeftPart(s[1..]);
      assert s == [s[0]] + s[1..];
      gap := [s[0]] + more;
      assert gap + StripLeft(s) == [s[0]] + (more + StripLeft(s[1..]));
    }
  }

  lemma {:induction false} RightPart(s: string) returns (gap: string)
    requires OneLine(s)
    ensures s == StripRight(s) + gap && IsGap(gap)
    ensures StripRight(s) != "" ==> !IsTextSpace(StripRight(s)[|StripRight(s)| - 1])
  {
    gap := "";
    if s != "" && IsTextSpace(s[|s| - 1]) {
      gap := RightPart(s[..|s| - 1]);
      gap := gap + [s[|s| - 1]];
    }
  }

  lemma OneLinePart(s: string, a: nat, b: nat)
    requires OneLine(s) && a <= b <= |s|
    ensures OneLine(s[a..b])
  {
  }

  /** A line, and what stripping leaves of it. */
  lemma StripParts(raw: string) returns (before: string, after: string)
    requires OneLine(raw)
    ensures raw == before + Strip(raw) + after && IsGap(before) && IsGap(after) && IsTidy(Strip(raw))
  {
    before := LeftPart(raw);
    var rest := StripLeft(raw);
    assert rest == raw[|before|..|raw|];
    OneLinePart(raw, |before|, |raw|);
    after := RightPart(rest);
    var t := StripRight(rest);
    assert t == rest[0..|t|];
    OneLinePart(rest, 0, |t|);
    assert t != "" ==> t[0] == rest[0];
  }

  lemma {:induction false} NameParts(s: string)
    ensures forall k | 0 <= k < NameLength(s) :: IsNameChar(s[k])
  {
    if s != "" && IsNameChar(s[0]) {
      NameParts(s[1..]);
      assert forall k | 0 < k < NameLength(s) :: s[k] == s[1..][k - 1];
    }
  }

  /** A stripped line that the pattern accepts is a setting. */
  lemma SettingParts(line: string) returns (gap1: string, gap2: string, trail: string)
    requires OneLine(line) && KeyValue(line).Some?
    ensures var (key, value) := KeyValue(line).value;
            && line == key + gap1 + "=" + gap2 + value + trail
            && IsName(key) && IsGap(gap1) && IsGap(gap2) && IsTidy(value) && IsGap(trail)
  {
    hide StripLeft, Strip, NameLength;
    var n := NameLength(line);
    NameParts(line);
    var key := line[..n];
    assert line[n..] == line[n..|line|];
    OneLinePart(line, n, |line|);
    gap1 := LeftPart(line[n..]);
    var rest := StripLeft(line[n..]);
    var tail := rest[1..];
    assert line[n..] == gap1 + rest;
    assert tail == line[n + |gap1| + 1..|line|] by {
      assert rest == line[n..][|gap1|..];
    }
    OneLinePart(line, n + |gap1| + 1, |line|);
    gap2, trail := StripParts(tail);
    var value := Strip(tail);
    assert line == key + line[n..];
    assert rest == "=" + tail;
    Regrouped(key, gap1, gap2, value, trail);
  }

  lemma Regrouped(key: string, gap1: string, gap2: string, value: string, trail: string)
    ensures key + (gap1 + ("=" + (gap2 + value + trail))) == key + gap1 + "=" + gap2 + value + trail
  {
  }

  /** What the loop makes of a line is what the line is. */
  lemma LineVerdict(raw: string)
    requires OneLine(raw)
    ensures var t := Strip(raw);
            && (t == "" || t[0] == '#' <==> IsNoteLine(raw))
            && (t != "" && t[0] != '#' && KeyValue(t).Some? <==> IsSettingLine(raw))
  {
    var before, after := StripParts(raw);
    hide Strip, KeyValue, WellWritten;
    var t := Strip(raw);
    if IsNoteLine(raw) {
      var it: Item :| it.Note? && WellWritten(it) && Line(it) == raw;
      NoteReads(it);
    }
    if IsSettingLine(raw) {
      var it: Item :| it.Setting? && WellWritten(it) && Line(it) == raw;
      LineReads(it);
    }
    if t == "" || t[0] == '#' {
      NoteLine(raw, before, t, after);
    } else if KeyValue(t).Some? {
      SettingLine(raw, before, t, after);
    }
  }

  lemma NoteLine(raw: string, before: string, t: string, after: string)
    requires raw == before + t + after && IsGap(before) && IsGap(after) && IsTidy(t) && (t == "" || t[0] == '#')
    ensures IsNoteLine(raw)
  {
    if t == "" {
      var it := Note(before + after, "");
      assert WellWritten(it) && Line(it) == raw;
    } else {
      var it := Note(before, t + after);
      assert WellWritten(it) && Line(it) == raw;
    }
  }

  lemma SettingLine(raw: string, before: string, t: string, after: string)
    requires raw == before + t + after && IsGap(before) && IsGap(after) && OneLine(t) && KeyValue(t).Some?
    ensures IsSettingLine(raw)
  {
    hide KeyValue;
    var gap1, gap2, trail := SettingParts(t);
    var (key, value) := KeyValue(t).value;
    GapAppend(trail, after);
    var it := Setting(before, key, gap1, gap2, value, trail + after);
    hide IsGap, IsName, IsTidy;
    assert before + (key + gap1 + "=" + gap2 + value + trail) + after ==
             before + key + gap1 + "=" + gap2 + value + (trail + after);
    assert WellWritten(it) && Line(it) == raw;
  }

  predicate AllOneLine(lines: seq<string>) { forall k | 0 <= k < |lines| :: OneLine(lines[k]) }

  /** The first line that is neither a note nor a setting is reported, with its own number. */
  lemma {:induction false} FirstUnreadable(lines: seq<string>, k: nat, lineno: nat, values: map<string, string>)
    requires AllOneLine(lines) && k < |lines| && Unreadable(lines[k])
    requires forall i | 0 <= i < k :: !Unreadable(lines[i])
    ensures ReadLines(lines, lineno, values) == Err(CannotParse(lineno + k, lines[k]))
    decreases k
  {
    hide Strip, KeyValue, IsNoteLine, IsSettingLine;
    LineVerdict(lines[0]);
    if k > 0 {
      assert !Unreadable(lines[0]);
      assert forall i | 0 <= i < k - 1 :: lines[1..][i] == lines[i + 1];
      var t := Strip(lines[0]);
      var values' := if t == "" || t[0] == '#' then values
                     else values[KeyValue(t).value.0 := KeyValue(t).value.1];
      FirstUnreadable(lines[1..], k - 1, lineno + 1, values');
    }
  }

  /** If there is none, reading does not fail. */
  lemma {:induction false} AllReadable(lines: seq<string>, lineno: nat, values: map<string, string>)
    requires AllOneLine(lines) && forall i | 0 <= i < |lines| :: !Unreadable(lines[i])
    ensures ReadLines(lines, lineno, values).Ok?
    decreases |lines|
  {
    hide Strip, KeyValue, IsNoteLine, IsSettingLine;
    if lines != [] {
      LineVerdict(lines[0]);
      assert !Unreadable(lines[0]);
      assert forall i | 0 <= i < |lines| - 1 :: lines[1..][i] == lines[i + 1];
      var t := Strip(lines[0]);
      var values' := if t == "" || t[0] == '#' then values
                     else values[KeyValue(t).value.0 := KeyValue(t).value.1];
      AllReadable(lines[1..], lineno + 1, values');
    }
  }

  lemma {:induction false} LineIsClean(s: string)
    ensures OneLine(s[..LineLength(s)])
  {
    if s != "" && !IsBreak(s[0]) {
      LineIsClean(s[1..]);
      assert forall k | 0 < k < LineLength(s) :: s[..LineLength(s)][k] == s[1..][..LineLength(s[1..])][k - 1];
    }
  }

  lemma {:induction false} SplitLinesClean(s: string)
    ensures AllOneLine(SplitLines(s))
    decreases |s|
  {
    hide LineLength, OneLine;
    LineIsClean(s);
    if s != "" {
      var n := LineLength(s);
      assert s[..|s|] == s;
      if n < |s| {
        var width := if s[n] == '\r' && n + 1 < |s| && s[n + 1] == '\n' then 2 else 1;
        SplitLinesClean(s[n + width..]);
      }
    }
  }

  /**
   * A file is refused for a line exactly when that line is its first that is neither a note nor a
   * setting, and the error names it and its number, counting from one.
   */
  lemma RefusedForLine(text: string, k: nat)
    requires k < |SplitLines(text)|
    ensures Parse(text) == Err(CannotParse(k + 1, SplitLines(text)[k])) <==>
              Unreadable(SplitLines(text)[k]) && forall i | 0 <= i < k :: !Unreadable(SplitLines(text)[i])
  {
    hide SplitLines, Unreadable, ReadLines;
    var lines := SplitLines(text);
    SplitLinesClean(text);
    if j :| 0 <= j < |lines| && Unreadable(lines[j]) {
      var f := FirstOf(lines, j);
      FirstUnreadable(lines, f, 1, map[]);
    } else {
      AllReadable(lines, 1, map[]);
    }
  }

  lemma FirstOf(lines: seq<string>, j: nat) returns (f: nat)
    requires j < |lines| && Unreadable(lines[j])
    ensures f <= j && Unreadable(lines[f]) && forall i | 0 <= i < f :: !Unreadable(lines[i])
    decreases j
  {
    hide Unreadable;
    f := j;
    if i :| 0 <= i < j && Unreadable(lines[i]) {
      f := FirstOf(lines, i);
    }
  }

  // ----- round trip -----

  /** The last setting of `key`, if any, is to `value`. */
  predicate Settles(items: seq<Item>, key: string, value: string) {
    exists i | 0 <= i < |items| :: SettlesAt(items, key, value, i)
  }

  predicate SettlesAt(items: seq<Item>, key: string, value: string, i: nat)
    requires i < |items|
  {
    && items[i].Setting? && items[i].key == key && items[i].value == value
    && forall j | i < j < |items| && items[j].Setting? :: items[j].key != key
  }

  lemma {:induction false} UnsetKeepsValue(items: seq<Item>, values: map<string, string>, key: string)
    requires key in values && forall j | 0 <= j < |items| && items[j].Setting? :: items[j].key != key
    ensures key in Meaning(items, values) && Meaning(items, values)[key] == values[key]
    decreases |items|
  {
    if items != [] {
      UnsetKeepsValue(items[1..], if items[0].Setting? then values[items[0].key := items[0].value] else values, key);
    }
  }

  /** A key means the value it was last set to. */
  lemma {:induction false} SettledMeans(
      items: seq<Item>, values: map<string, string>, key: string, value: string, i: nat)
    requires i < |items| && SettlesAt(items, key, value, i)
    ensures key in Meaning(items, values) && Meaning(items, values)[key] == value
    decreases |items|
  {
    var values' := if items[0].Setting? then values[items[0].key := items[0].value] else values;
    if i == 0 {
      UnsetKeepsValue(items[1..], values', key);
    } else {
      SettledMeans(items[1..], values', key, value, i - 1);
    }
  }

  /** A configuration the parser can return. */
  predicate IsValidConfig(c: RoomConfig) {
    && 1 <= |c.roomName| <= 32 && IsValidWpsPin(c.wpsPin)
    && 8 <= |c.passphrase| <= 63 && (c.channel == 36 || c.channel == 40 || c.channel == 44 || c.channel == 48)
  }

  lemma ChannelReads(c: int)
    requires IsAllowedChannel(c)
    ensures PyInt(Decimal(c)) == Some(c)
  {
    ParseDecimal(c);
    var s := Decimal(c);
    assert s == [DigitChar(c / 10), DigitChar(c % 10)] by {
      assert Decimal(c) == Decimal(c / 10) + [DigitChar(c % 10)];
    }
    NothingToDrop(s);
  }

  lemma {:induction false} NothingToDrop(s: string)
    requires forall k | 0 <= k < |s| :: IsDigit(s[k])
    ensures DropUnderscores(s) == s
  {
    if s != "" {
      NothingToDrop(s[1..]);
    }
  }

  /**
   * Any file whose settings leave behind a valid configuration's values parses to exactly that
   * configuration: in any order, with any comments, blank lines, spacing and unknown keys, and
   * with any earlier settings that later ones override.
   */
  lemma ConfigRoundTrip(items: seq<Item>, end: string, ended: bool, c: RoomConfig)
    requires AllWellWritten(items) && IsLineEnd(end) && IsValidConfig(c)
    requires Settles(items, "room_name", c.roomName) && Settles(items, "wps_pin", c.wpsPin)
    requires Settles(items, "passphrase", c.passphrase) && Settles(items, "channel", Decimal(c.channel))
    ensures Parse(FileText(items, end, ended)) == Ok(c)
  {
    hide Meaning, SettlesAt, IsValidWpsPin, PyInt, Parse;
    ParseMeans(items, end, ended);
    var i1 :| 0 <= i1 < |items| && SettlesAt(items, "room_name", c.roomName, i1);
    var i2 :| 0 <= i2 < |items| && SettlesAt(items, "wps_pin", c.wpsPin, i2);
    var i3 :| 0 <= i3 < |items| && SettlesAt(items, "passphrase", c.passphrase, i3);
    var i4 :| 0 <= i4 < |items| && SettlesAt(items, "channel", Decimal(c.channel), i4);
    SettledMeans(items, map[], "room_name", c.roomName, i1);
    SettledMeans(items, map[], "wps_pin", c.wpsPin, i2);
    SettledMeans(items, map[], "passphrase", c.passphrase, i3);
    SettledMeans(items, map[], "channel", Decimal(c.channel), i4);
    ChannelReads(c.channel);
    ValidateAccepts(Meaning(items, map[]), c);
  }

  lemma ValidateAccepts(values: map<string, string>, c: RoomConfig)
    requires IsValidConfig(c)
    requires "room_name" in values && "wps_pin" in values && "passphrase" in values && "channel" in values
    requires values["room_name"] == c.roomName && values["wps_pin"] == c.wpsPin
    requires values["passphrase"] == c.passphrase && PyInt(values["channel"]) == Some(c.channel)
    ensures Validate(values) == Ok(c)
  {
    hide PyInt, ParseNat, WpsPinChecksum, AllBody;
  }

  /** And nothing else is accepted: what the parser returns is valid and is what the file means. */
  lemma ParsedIsValid(text: string)
    ensures Parse(text).Ok? ==> IsValidConfig(Parse(text).value)
  {
    hide SplitLines, ReadLines;
  }

  // ----- the checksum digit -----

  function DigitAt(pin: string, k: nat): (d: nat)
    requires IsPinShape(pin) && k < 8
    ensures d < 10
  {
    assert InBody(pin[k], Digits);
    DigitValue(pin[k])
  }

  /** Every digit of a pin, weighted 3 and 1 in turn. */
  function Weighted(pin: string): nat
    requires IsPinShape(pin)
  {
    3 * DigitAt(pin, 0) + DigitAt(pin, 1) + 3 * DigitAt(pin, 2) + DigitAt(pin, 3)
    + 3 * DigitAt(pin, 4) + DigitAt(pin, 5) + 3 * DigitAt(pin, 6) + DigitAt(pin, 7)
  }

  lemma ParseStep(s: string, n: nat)
    requires 1 < n <= |s| && AllBody(s, Digits)
    ensures AllBody(s[..n], Digits) && AllBody(s[..n - 1], Digits) && InBody(s[n - 1], Digits)
    ensures ParseNat(s[..n]) == 10 * ParseNat(s[..n - 1]) + DigitValue(s[n - 1])
  {
    assert forall k | 0 <= k < n :: InBody(s[k], Digits);
    assert s[..n][..n - 1] == s[..n - 1];
  }

  /** The number the first seven digits of a pin write. */
  lemma PrefixValue(pin: string)
    requires IsPinShape(pin)
    ensures AllBody(pin[..7], Digits)
    ensures ParseNat(pin[..7]) ==
              1000000 * DigitAt(pin, 0) + 100000 * DigitAt(pin, 1) + 10000 * DigitAt(pin, 2) + 1000 * DigitAt(pin, 3)
              + 100 * DigitAt(pin, 4) + 10 * DigitAt(pin, 5) + DigitAt(pin, 6)
  {
    hide ParseNat;
    ParseStep(pin, 7);
    ParseStep(pin, 6);
    ParseStep(pin, 5);
    ParseStep(pin, 4);
    ParseStep(pin, 3);
    ParseStep(pin, 2);
    ParseOne(pin[..1]);
  }

  lemma ParseOne(s: string)
    requires |s| == 1 && AllBody(s, Digits)
    ensures InBody(s[0], Digits) && ParseNat(s) == DigitValue(s[0])
  {
    assert InBody(s[0], Digits);
  }

  lemma ChecksumOfDigits(n: nat, a: nat, b: nat, c: nat, d: nat, e: nat, f: nat, g: nat)
    requires a < 10 && b < 10 && c < 10 && d < 10 && e < 10 && f < 10 && g < 10
    requires n == 1000000 * a + 100000 * b + 10000 * c + 1000 * d + 100 * e + 10 * f + g
    ensures WpsPinChecksum(n) == (10 - (3 * a + b + 3 * c + d + 3 * e + f + 3 * g) % 10) % 10
  {
    hide WpsPinChecksum;
    LowDigits(n, 1000 * a + 100 * b + 10 * c + d, e, f, g);
    HighDigits(n, a, b, c, d);
    ChecksumSum(n, a, b, c, d, e, f, g);
  }

  lemma ChecksumSum(n: nat, a: nat, b: nat, c: nat, d: nat, e: nat, f: nat, g: nat)
    requires n / 1000000 % 10 == a && n / 100000 % 10 == b && n / 10000 % 10 == c && n / 1000 % 10 == d
    requires n / 100 % 10 == e && n / 10 % 10 == f && n % 10 == g
    ensures WpsPinChecksum(n) == (10 - (3 * a + b + 3 * c + d + 3 * e + f + 3 * g) % 10) % 10
  {
  }

  lemma HighDigits(n: nat, a: nat, b: nat, c: nat, d: nat)
    requires a < 10 && b < 10 && c < 10 && d < 10 && n / 1000 == 1000 * a + 100 * b + 10 * c + d
    ensures n / 1000000 % 10 == a && n / 100000 % 10 == b && n / 10000 % 10 == c && n / 1000 % 10 == d
  {
    var high := n / 1000;
    LowDigits(high, a, b, c, d);
    assert n / 10000 == high / 10 && n / 100000 == high / 100 && n / 1000000 == high / 1000;
  }

  lemma LowDigits(n: nat, above: nat, e: nat, f: nat, g: nat)
    requires e < 10 && f < 10 && g < 10 && n == 1000 * above + 100 * e + 10 * f + g
    ensures n / 1000 == above && n / 100 % 10 == e && n / 10 % 10 == f && n % 10 == g
  {
    DigitsInTurn(n);
    LastDigit(n, 100 * above + 10 * e + f, g);
    LastDigit(100 * above + 10 * e + f, 10 * above + e, f);
    LastDigit(10 * above + e, above, e);
  }

  lemma LastDigit(n: nat, above: nat, digit: nat)
    requires n == 10 * above + digit && digit < 10
    ensures n / 10 == above && n % 10 == digit
  {
  }

  lemma DigitsInTurn(n: nat)
    ensures n / 100 == n / 10 / 10
    ensures n / 1000 == n / 10 / 10 / 10
    ensures n / 10000 == n / 10 / 10 / 10 / 10
    ensures n / 100000 == n / 10 / 10 / 10 / 10 / 10
    ensures n / 1000000 == n / 10 / 10 / 10 / 10 / 10 / 10
  {
    assert n / 1000 == n / 100 / 10;
    assert n / 10000 == n / 1000 / 10;
    assert n / 100000 == n / 10000 / 10;
    assert n / 1000000 == n / 100000 / 10;
  }

  lemma TenComplement(sum: nat, last: nat)
    requires last < 10
    ensures (10 - sum % 10) % 10 == last <==> (sum + last) % 10 == 0
  {
  }

  /** The weighted digits before the check digit. */
  function PrefixWeighted(pin: string): nat
    requires IsPinShape(pin)
  {
    3 * DigitAt(pin, 0) + DigitAt(pin, 1) + 3 * DigitAt(pin, 2) + DigitAt(pin, 3)
    + 3 * DigitAt(pin, 4) + DigitAt(pin, 5) + 3 * DigitAt(pin, 6)
  }

  lemma PrefixChecksum(pin: string)
    requires IsPinShape(pin)
    ensures AllBody(pin[..7], Digits)
    ensures WpsPinChecksum(ParseNat(pin[..7])) == (10 - PrefixWeighted(pin) % 10) % 10
  {
    hide AllBody, ParseNat, WpsPinChecksum, DigitAt;
    PrefixValue(pin);
    ChecksumOfDigits(ParseNat(pin[..7]), DigitAt(pin, 0), DigitAt(pin, 1), DigitAt(pin, 2), DigitAt(pin, 3),
                     DigitAt(pin, 4), DigitAt(pin, 5), DigitAt(pin, 6));
  }

  /** A pin is valid exactly when its weighted digits, the check digit among them, add up to a multiple of ten. */
  lemma ValidIffWeighted(pin: string)
    requires IsPinShape(pin)
    ensures IsValidWpsPin(pin) <==> Weighted(pin) % 10 == 0
  {
    hide AllBody, ParseNat, WpsPinChecksum, PrefixWeighted;
    PrefixChecksum(pin);
    TenComplement(PrefixWeighted(pin), DigitAt(pin, 7));
    WeightedSplits(pin);
  }

  lemma WeightedSplits(pin: string)
    requires IsPinShape(pin)
    ensures Weighted(pin) == PrefixWeighted(pin) + DigitAt(pin, 7)
  {
    hide DigitAt, AllBody;
  }

  lemma SameDigit(pin: string, other: string, k: nat)
    requires IsPinShape(pin) && IsPinShape(other) && k < 8
    ensures other[k] == pin[k] <==> DigitAt(other, k) == DigitAt(pin, k)
  {
  }

  /** A pin that differs from another of its shape in the digits i and j only (which may be one). */
  lemma DigitsChanged(pin: string, other: string, i: nat, j: nat)
    requires IsPinShape(pin) && IsPinShape(other) && i <= j < 8
    requires forall k | 0 <= k < 8 && k != i && k != j :: other[k] == pin[k]
    ensures Weighted(other) - Weighted(pin) ==
              Weight(i) * (DigitAt(other, i) - DigitAt(pin, i)) +
              if i == j then 0 else Weight(j) * (DigitAt(other, j) - DigitAt(pin, j))
  {
    hide AllBody, DigitAt;
    forall k | 0 <= k < 8 && k != i && k != j ensures DigitAt(other, k) == DigitAt(pin, k) {
      SameDigit(pin, other, k);
    }
  }

  function Weight(k: nat): nat { if k % 2 == 0 then 3 else 1 }

  /** One mistyped digit never goes unnoticed. */
  lemma MistypedDigitDetected(pin: string, k: nat, c: char)
    requires IsValidWpsPin(pin) && k < 8 && IsDigit(c) && c != pin[k]
    ensures IsPinShape(pin[k := c]) && !IsValidWpsPin(pin[k := c])
  {
    var other := pin[k := c];
    assert forall i | 0 <= i < 8 :: InBody(other[i], Digits) by {
      assert forall i | 0 <= i < 8 :: InBody(pin[i], Digits);
    }
    hide AllBody, Weighted, DigitAt, IsValidWpsPin;
    SameDigit(pin, other, k);
    ValidIffWeighted(pin);
    ValidIffWeighted(other);
    DigitsChanged(pin, other, k, k);
    NoMultiple(Weighted(pin), Weighted(other), Weight(k), DigitAt(other, k) - DigitAt(pin, k));
  }

  lemma NoMultiple(before: nat, after: nat, weight: nat, d: int)
    requires before % 10 == 0 && (weight == 1 || weight == 3) && after - before == weight * d
    requires d != 0 && -10 < d < 10
    ensures after % 10 != 0
  {
    if weight == 1 {
      assert after == before + d;
    } else {
      assert after == before + 3 * d;
    }
  }

  lemma MultipleByFive(before: nat, after: nat, d: int)
    requires before % 10 == 0 && (after - before == 2 * d || after - before == -2 * d) && -10 < d < 10
    ensures after % 10 == 0 <==> d == 0 || d == 5 || d == -5
  {
  }

  function Swapped(pin: string, k: nat): string
    requires k + 1 < |pin|
  {
    pin[k := pin[k + 1]][k + 1 := pin[k]]
  }

  lemma SwapShape(pin: string, k: nat)
    requires IsPinShape(pin) && k < 7
    ensures IsPinShape(Swapped(pin, k))
    ensures DigitAt(Swapped(pin, k), k) == DigitAt(pin, k + 1) && DigitAt(Swapped(pin, k), k + 1) == DigitAt(pin, k)
  {
    assert forall i | 0 <= i < 8 :: InBody(pin[i], Digits);
  }

  lemma SwapShift(pin: string, k: nat)
    requires IsPinShape(pin) && k < 7
    ensures IsPinShape(Swapped(pin, k))
    ensures Weighted(Swapped(pin, k)) - Weighted(pin) ==
              (if k % 2 == 0 then -2 else 2) * (DigitAt(pin, k) - DigitAt(pin, k + 1))
  {
    hide AllBody, Weighted;
    SwapShape(pin, k);
    DigitsChanged(pin, Swapped(pin, k), k, k + 1);
    if k % 2 == 0 {
      assert Weight(k) == 3 && Weight(k + 1) == 1;
    } else {
      assert Weight(k) == 1 && Weight(k + 1) == 3;
    }
  }

  /** Two neighbours swapped go unnoticed exactly when they are equal or differ by five. */
  lemma SwappedDigitsDetected(pin: string, k: nat)
    requires IsValidWpsPin(pin) && k < 7
    ensures var d := DigitAt(pin, k) - DigitAt(pin, k + 1);
            IsPinShape(Swapped(pin, k)) && (IsValidWpsPin(Swapped(pin, k)) <==> d == 0 || d == 5 || d == -5)
  {
    hide AllBody, Weighted, DigitAt, Swapped;
    SwapShift(pin, k);
    ValidIffWeighted(pin);
    ValidIffWeighted(Swapped(pin, k));
    MultipleByFive(Weighted(pin), Weighted(Swapped(pin, k)), DigitAt(pin, k) - DigitAt(pin, k + 1));
  }

  /** The check digit the error suggests is the one that makes the pin valid. */
  lemma SuggestedDigitIsValid(values: map<string, string>)
    requires Validate(values).Err? && Validate(values).error.BadPinChecksum?
    ensures "wps_pin" in values && |values["wps_pin"]| == 8 && Validate(values).error.correct < 10
    ensures IsValidWpsPin(values["wps_pin"][..7] + [DigitChar(Validate(values).error.correct)])
  {
    assert REQUIRED[1] in values;
    var pin, d := values["wps_pin"], DigitChar(Validate(values).error.correct);
    hide ParseNat, Weighted;
    var other := pin[..7] + [d];
    assert other[..7] == pin[..7];
    assert forall k | 0 <= k < 7 :: other[k] == pin[k];
    forall k | 0 <= k < 8 ensures InBody(other[k], Digits) {
      assert k < 7 ==> InBody(pin[k], Digits);
    }
  }
}
