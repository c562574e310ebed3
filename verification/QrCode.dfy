/**
 * castd/airplay/qrcode_wifi.py: the WIFI: payload of the AirPlay join code, and the
 * left-to-right field reader a scanner applies to it.
 */
module QrCode {
  import opened Prelude

  const ESCAPE_CHARS := ['\\', ';', ',', '"', ':']

  /** str.replace(ch, "\\" + ch) */
  function Replace(s: string, ch: char): (r: string)
  {
    if s == "" then ""
    else (if s[0] == ch then ['\\', ch] else [s[0]]) + Replace(s[1..], ch)
  }

  /** One pass that puts a backslash before every character of `special`. */
  function EscapeIn(s: string, special: seq<char>): (r: string)
  {
    if s == "" then ""
    else (if s[0] in special then ['\\', s[0]] else [s[0]]) + EscapeIn(s[1..], special)
  }

  lemma {:induction false} ReplaceAppend(a: string, b: string, ch: char)
    ensures Replace(a + b, ch) == Replace(a, ch) + Replace(b, ch)
  {
    if a == "" {
      assert a + b == b;
    } else {
      assert (a + b)[1..] == a[1..] + b;
      ReplaceAppend(a[1..], b, ch);
    }
  }

  lemma ReplaceShort(c: char, ch: char)
    ensures Replace([c], ch) == if c == ch then ['\\', ch] else [c]
    ensures ch != '\\' && c != ch ==> Replace(['\\', c], ch) == ['\\', c]
  {
    assert [c][1..] == "" && ['\\', c][1..] == [c];
  }

  /**
   * Replacing one more character after a pass is one larger pass, provided that character is
   * new and is not the backslash the pass has already introduced.
   */
  lemma {:induction false} ReplaceExtends(s: string, done: seq<char>, ch: char)
    requires ch !in done && (done == [] || ch != '\\')
    ensures Replace(EscapeIn(s, done), ch) == EscapeIn(s, done + [ch])
  {
    if s != "" {
      var c := s[0];
      var head := if c in done then ['\\', c] else [c];
      ReplaceExtends(s[1..], done, ch);
      ReplaceAppend(head, EscapeIn(s[1..], done), ch);
      ReplaceShort(c, ch);
    }
  }

  lemma {:induction false} EscapeNothing(s: string)
    ensures EscapeIn(s, []) == s
  {
    if s != "" {
      EscapeNothing(s[1..]);
    }
  }

  /** Five replacements in sequence are one pass over the five special characters. */
  method Escape(value: string) returns (out: string)
    ensures out == EscapeIn(value, ['\\', ';', ',', '"', ':'])
  {
    out := value;
    EscapeNothing(value);
    for i := 0 to |ESCAPE_CHARS|
      invariant out == EscapeIn(value, ESCAPE_CHARS[..i])
    {
      ReplaceExtends(value, ESCAPE_CHARS[..i], ESCAPE_CHARS[i]);
      assert ESCAPE_CHARS[..i] + [ESCAPE_CHARS[i]] == ESCAPE_CHARS[..i + 1];
      out := Replace(out, ESCAPE_CHARS[i]);
    }
    assert ESCAPE_CHARS[..|ESCAPE_CHARS|] == ESCAPE_CHARS;
  }

  /** The loop of _escape, over any order of characters. */
  function ReplaceAll(s: string, order: seq<char>): (r: string)
    decreases |order|
  {
    if order == [] then s else ReplaceAll(Replace(s, order[0]), order[1..])
  }

  predicate Distinct(order: seq<char>) { forall i, j | 0 <= i < j < |order| :: order[i] != order[j] }

  lemma {:induction false} ReplaceAllExtends(s: string, done: seq<char>, order: seq<char>)
    requires Distinct(done + order) && forall k | 0 <= k < |order| :: done != [] || k > 0 ==> order[k] != '\\'
    ensures ReplaceAll(EscapeIn(s, done), order) == EscapeIn(s, done + order)
    decreases |order|
  {
    if order == [] {
      assert done + order == done;
    } else {
      var ch := order[0];
      assert (done + order)[|done|] == ch;
      forall i | 0 <= i < |done| ensures done[i] != ch {
        assert (done + order)[i] == done[i];
      }
      ReplaceExtends(s, done, ch);
      assert done + [ch] + order[1..] == done + order;
      ReplaceAllExtends(s, done + [ch], order[1..]);
    }
  }

  lemma {:induction false} ReplaceGrows(s: string, ch: char)
    ensures |Replace(s, ch)| >= |s| + if ch in s then 1 else 0
    ensures '\\' in s ==> '\\' in Replace(s, ch)
  {
    if s != "" {
      ReplaceGrows(s[1..], ch);
    }
  }

  lemma {:induction false} ReplaceAllGrows(s: string, order: seq<char>)
    requires '\\' in s
    ensures |ReplaceAll(s, order)| >= |s| + if '\\' in order then 1 else 0
    decreases |order|
  {
    if order != [] {
      ReplaceGrows(s, order[0]);
      ReplaceAllGrows(Replace(s, order[0]), order[1..]);
    }
  }

  /** Do the replacements, in this order, make one pass over their characters? */
  ghost predicate OnePass(order: seq<char>) { forall s :: ReplaceAll(s, order) == EscapeIn(s, order) }

  /** The order matters, and only in this: the backslash, if replaced at all, must be replaced first. */
  lemma BackslashMustComeFirst(order: seq<char>)
    requires Distinct(order)
    ensures OnePass(order) <==> '\\' !in order || order[0] == '\\'
  {
    if '\\' !in order || order[0] == '\\' {
      forall s: string ensures ReplaceAll(s, order) == EscapeIn(s, order) {
        EscapeNothing(s);
        assert [] + order == order;
        assert forall k | 0 < k < |order| :: order[k] != order[0];
        ReplaceAllExtends(s, [], order);
      }
    } else {
      var ch := order[0];
      ReplaceShort(ch, ch);
      assert order[1..][..] == order[1..] && '\\' in order[1..];
      ReplaceAllGrows(Replace([ch], ch), order[1..]);
      assert EscapeIn([ch], order) == ['\\', ch] + EscapeIn("", order) == ['\\', ch];
      assert ReplaceAll([ch], order) != EscapeIn([ch], order);
    }
  }

  // ----- the payload -----

  function Escaped(s: string): string { EscapeIn(s, ESCAPE_CHARS) }

  /** None stands for the ValueError on an empty ssid or a passphrase outside 8-63 characters. */
  function Payload(ssid: string, passphrase: string, hidden: bool): (r: Option<string>)
    ensures r.Some? <==> ssid != "" && 8 <= |passphrase| <= 63
  {
    if ssid == "" || !(8 <= |passphrase| <= 63) then None
    else Some("WIFI:" + "T:WPA;" + ("S:" + Escaped(ssid) + ";") + ("P:" + Escaped(passphrase) + ";")
              + (if hidden then "H:true;" else "") + ";")
  }

  method BuildWifiQrPayload(ssid: string, passphrase: string, hidden: bool) returns (r: Option<string>)
    ensures r == Payload(ssid, passphrase, hidden)
  {
    if ssid == "" {
      return None;
    }
    if !(8 <= |passphrase| <= 63) {
      return None;
    }
    var s := Escape(ssid);
    var p := Escape(passphrase);
    var parts := ["WIFI:", "T:WPA;", "S:" + s + ";", "P:" + p + ";"];
    if hidden {
      parts := parts + ["H:true;"];
    }
    parts := parts + [";"];
    JoinParts("WIFI:", "T:WPA;", "S:" + s + ";", "P:" + p + ";", hidden);
    assert parts == ["WIFI:", "T:WPA;", "S:" + s + ";", "P:" + p + ";"] + (if hidden then ["H:true;"] else []) + [";"];
    return Some(Concat(parts));
  }

  lemma JoinParts(a: string, b: string, c: string, d: string, hidden: bool)
    ensures Concat([a, b, c, d] + (if hidden then ["H:true;"] else []) + [";"]) ==
              a + b + c + d + (if hidden then "H:true;" else "") + ";"
  {
    var flag := if hidden then ["H:true;"] else [];
    ConcatAppend([a, b, c, d] + flag, [";"]);
    ConcatAppend([a, b, c, d], flag);
    ConcatAppend([a, b, c], [d]);
    ConcatAppend([a, b], [c]);
    ConcatAppend([a], [b]);
    assert [a, b, c, d] == [a, b, c] + [d] && [a, b, c] == [a, b] + [c] && [a, b] == [a] + [b];
    ConcatSingle(a);
    ConcatSingle(b);
    ConcatSingle(c);
    ConcatSingle(d);
    ConcatSingle("H:true;");
    ConcatSingle(";");
  }

  // ----- a scanner's reader -----

  /** The text up to the first ';' not preceded by a backslash, unescaped, and what follows. */
  function ReadField(s: string): (r: Option<(string, string)>)
    ensures r.Some? ==> |r.value.1| < |s|
  {
    if s == "" then None
    else if s[0] == ';' then Some(("", s[1..]))
    else
      var n := if s[0] == '\\' then 2 else 1;
      if |s| < n then None
      else match ReadField(s[n..])
           case None => None
           case Some((text, rest)) => Some(([s[n - 1]] + text, rest))
  }

  /** Fields up to the empty one that ends the payload. */
  function ReadFields(s: string): (r: Option<seq<string>>)
    decreases |s|
  {
    match ReadField(s)
    case None => None
    case Some((text, rest)) =>
      if text == "" then if rest == "" then Some([]) else None
      else match ReadFields(rest)
           case None => None
           case Some(more) => Some([text] + more)
  }

  /** The value of the first field that starts with `key`. */
  function ValueOf(fields: seq<string>, key: string): Option<string>
  {
    if fields == [] then None
    else if key <= fields[0] then Some(fields[0][|key|..])
    else ValueOf(fields[1..], key)
  }

  datatype Network = Network(security: Option<string>, ssid: Option<string>, passphrase: Option<string>, hidden: bool)

  function ReadNetwork(payload: string): Option<Network> {
    if !("WIFI:" <= payload) then None
    else match ReadFields(payload[|"WIFI:"|..])
         case None => None
         case Some(fields) =>
           Some(Network(ValueOf(fields, "T:"), ValueOf(fields, "S:"), ValueOf(fields, "P:"),
                        ValueOf(fields, "H:") == Some("true")))
  }

  /** Escaped text is read back as one field, whatever it holds and whatever follows. */
  lemma {:induction false} EscapedFieldReads(v: string, rest: string)
    ensures ReadField(Escaped(v) + ";" + rest) == Some((v, rest))
  {
    var s := Escaped(v) + ";" + rest;
    if v == "" {
      assert s[1..] == rest;
    } else {
      var tail := Escaped(v[1..]) + ";" + rest;
      EscapedFieldReads(v[1..], rest);
      var head := if v[0] in ESCAPE_CHARS then ['\\', v[0]] else [v[0]];
      assert s == head + tail;
      assert s[|head|..] == tail;
      assert [v[0]] + v[1..] == v;
    }
  }

  /** A key of ordinary characters in front of it is read along. */
  lemma {:induction false} KeyedFieldReads(key: string, v: string, rest: string)
    requires forall k | 0 <= k < |key| :: key[k] != ';' && key[k] != '\\'
    ensures ReadField(key + Escaped(v) + ";" + rest) == Some((key + v, rest))
  {
    if key == "" {
      EscapedFieldReads(v, rest);
      assert key + Escaped(v) == Escaped(v) && key + v == v;
    } else {
      var s := key + Escaped(v) + ";" + rest;
      KeyedFieldReads(key[1..], v, rest);
      assert s[1..] == key[1..] + Escaped(v) + ";" + rest;
      assert [key[0]] + (key[1..] + v) == key + v;
    }
  }

  lemma FieldsCons(text: string, rest: string, s: string)
    requires ReadField(s) == Some((text, rest)) && text != ""
    ensures ReadFields(s) == match ReadFields(rest) case None => None case Some(more) => Some([text] + more)
  {
  }

  lemma PlainFieldReads(key: string, rest: string)
    requires forall k | 0 <= k < |key| :: key[k] != ';' && key[k] != '\\'
    ensures ReadField(key + ";" + rest) == Some((key, rest))
  {
    KeyedFieldReads(key, "", rest);
    assert key + "" == key;
  }

  lemma EndReads()
    ensures ReadFields(";") == Some([])
  {
    assert ";"[1..] == "";
  }

  /** The fields of a payload. */
  lemma PayloadFields(ssid: string, passphrase: string, hidden: bool)
    requires Payload(ssid, passphrase, hidden).Some?
    ensures ReadFields(Payload(ssid, passphrase, hidden).value[5..]) ==
              Some(["T:WPA", "S:" + ssid, "P:" + passphrase] + if hidden then ["H:true"] else [])
  {
    hide ReadField, ReadFields, EscapeIn;
    var s3 := if hidden then "H:true" + ";" + ";" else ";";
    var s2 := "P:" + Escaped(passphrase) + ";" + s3;
    var s1 := "S:" + Escaped(ssid) + ";" + s2;
    var s0 := "T:WPA" + ";" + s1;
    EndReads();
    if hidden {
      PlainFieldReads("H:true", ";");
      FieldsCons("H:true", ";", s3);
    }
    var flag := if hidden then ["H:true"] else [];
    assert ["H:true"] + [] == ["H:true"];
    assert ReadFields(s3) == Some(flag);
    KeyedFieldReads("P:", passphrase, s3);
    FieldsCons("P:" + passphrase, s3, s2);
    assert ReadFields(s2) == Some(["P:" + passphrase] + flag);
    KeyedFieldReads("S:", ssid, s2);
    FieldsCons("S:" + ssid, s2, s1);
    assert ReadFields(s1) == Some(["S:" + ssid] + (["P:" + passphrase] + flag));
    PlainFieldReads("T:WPA", s1);
    FieldsCons("T:WPA", s1, s0);
    PayloadShape(ssid, passphrase, hidden);
    assert ("WIFI:" + s0)[5..] == s0;
    assert ["T:WPA"] + (["S:" + ssid] + (["P:" + passphrase] + flag)) ==
             ["T:WPA", "S:" + ssid, "P:" + passphrase] + flag;
  }

  lemma PayloadShape(ssid: string, passphrase: string, hidden: bool)
    requires Payload(ssid, passphrase, hidden).Some?
    ensures var s3 := if hidden then "H:true" + ";" + ";" else ";";
            Payload(ssid, passphrase, hidden).value ==
              "WIFI:" + ("T:WPA" + ";" + ("S:" + Escaped(ssid) + ";" + ("P:" + Escaped(passphrase) + ";" + s3)))
  {
    hide Escaped;
  }

  lemma ValuesOfFields(ssid: string, passphrase: string, flag: seq<string>)
    requires flag == [] || flag == ["H:true"]
    ensures var f := ["T:WPA", "S:" + ssid, "P:" + passphrase] + flag;
            && ValueOf(f, "T:") == Some("WPA") && ValueOf(f, "S:") == Some(ssid)
            && ValueOf(f, "P:") == Some(passphrase) && (ValueOf(f, "H:") == Some("true") <==> flag != [])
  {
    hide ValueOf;
    var t, s, p := "T:WPA", "S:" + ssid, "P:" + passphrase;
    var f3 := [p] + flag;
    var f2 := [s] + f3;
    assert [t, s, p] + flag == [t] + f2;
    ValueHere(t, "T:", f2);
    assert t[2..] == "WPA";
    ValueLater(t, "S:", f2);
    ValueHere(s, "S:", f3);
    assert s[2..] == ssid;
    ValueLater(t, "P:", f2);
    ValueLater(s, "P:", f3);
    ValueHere(p, "P:", flag);
    assert p[2..] == passphrase;
    ValueLater(t, "H:", f2);
    ValueLater(s, "H:", f3);
    ValueLater(p, "H:", flag);
    ValueNone("H:");
    ValueHere("H:true", "H:", []);
    assert "H:true"[2..] == "true" && ["H:true"] + [] == ["H:true"];
  }

  lemma ValueHere(field: string, key: string, rest: seq<string>)
    requires key <= field
    ensures ValueOf([field] + rest, key) == Some(field[|key|..])
  {
  }

  lemma ValueLater(field: string, key: string, rest: seq<string>)
    requires key != "" && field != "" && key[0] != field[0]
    ensures ValueOf([field] + rest, key) == ValueOf(rest, key)
  {
    assert ([field] + rest)[1..] == rest;
  }

  lemma ValueNone(key: string)
    ensures ValueOf([], key) == None
  {
  }

  /** A scanner recovers ssid, passphrase and hidden flag from every payload. */
  lemma PayloadRoundTrip(ssid: string, passphrase: string, hidden: bool)
    requires Payload(ssid, passphrase, hidden).Some?
    ensures ReadNetwork(Payload(ssid, passphrase, hidden).value) ==
              Some(Network(Some("WPA"), Some(ssid), Some(passphrase), hidden))
  {
    hide ReadFields, ValueOf, Escaped;
    PayloadFields(ssid, passphrase, hidden);
    PayloadShape(ssid, passphrase, hidden);
    ValuesOfFields(ssid, passphrase, if hidden then ["H:true"] else []);
  }

  /** So no two networks share a payload. */
  lemma PayloadInjective(s1: string, p1: string, h1: bool, s2: string, p2: string, h2: bool)
    requires Payload(s1, p1, h1).Some? && Payload(s1, p1, h1) == Payload(s2, p2, h2)
    ensures s1 == s2 && p1 == p2 && h1 == h2
  {
    hide ReadNetwork, Payload;
    PayloadRoundTrip(s1, p1, h1);
    PayloadRoundTrip(s2, p2, h2);
  }
}
