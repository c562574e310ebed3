/** castd/airplay/uxplay.py, UxPlayClientTracker: client sessions inferred from uxplay's log. */
module UxPlay {
  import opened Prelude
  import opened Text

  /** What one log line means, in the order the tracker tests for it. */
  datatype LineKind = ServerStop | Accept | Close | Other

  datatype Edge = Connected | Disconnected

  /** A case-insensitive literal at position i. */
  predicate FoldAt(s: string, i: nat, pat: string) {
    i + |pat| <= |s| && forall k | 0 <= k < |pat| :: Lower(s[i + k]) == Lower(pat[k])
  }

  predicate ContainsFold(s: string, pat: string) {
    exists i | 0 <= i <= |s| :: FoldAt(s, i, pat)
  }

  /** Accepted .*client on socket */
  predicate IsAccept(s: string) {
    exists i, j | 0 <= i <= |s| && 0 <= j <= |s| ::
      FoldAt(s, i, "Accepted ") && FoldAt(s, j, "client on socket") && i + 9 <= j && '\n' !in s[i + 9..j]
  }

  function Classify(line: string): LineKind {
    if ContainsFold(line, "Stopping RAOP Server") then ServerStop
    else if IsAccept(line) then Accept
    else if ContainsFold(line, "Connection closed") || ContainsFold(line, "raop_rtp_mirror stopping") then Close
    else Other
  }

  lemma FoldIs(s: string, i: nat, pat: string, lower: string)
    requires |pat| == |lower| && forall k | 0 <= k < |lower| :: Lower(pat[k]) == lower[k] && !('A' <= lower[k] <= 'Z')
    ensures FoldAt(s, i, pat) <==> AnyCaseAt(s, i, lower)
  {
    if i + |pat| <= |s| {
      forall k | 0 <= k < |lower|
        ensures Lower(s[i + k]) == Lower(pat[k]) <==>
                s[i + k] == lower[k] || ('a' <= lower[k] <= 'z' && s[i + k] == lower[k] - 'a' + 'A')
      {
        LetterCases(s[i + k], lower[k]);
      }
    }
  }

  /** A literal stands somewhere in a line, in any case of letters. */
  ghost predicate Says(line: string, lower: string) { exists i :: AnyCaseAt(line, i, lower) }

  /** "accepted ", and later in the line, with no line break between, "client on socket". */
  ghost predicate SaysAccepted(line: string) {
    exists i, j :: AnyCaseAt(line, i, "accepted ") && AnyCaseAt(line, j, "client on socket")
                   && OneLine(line, i + 9, j)
  }

  predicate OneLine(line: string, from: int, to: int) {
    0 <= from <= to <= |line| && forall k | from <= k < to :: line[k] != '\n'
  }

  lemma SaysIs(line: string, pat: string, lower: string)
    requires |pat| == |lower| && forall k | 0 <= k < |lower| :: Lower(pat[k]) == lower[k] && !('A' <= lower[k] <= 'Z')
    ensures ContainsFold(line, pat) <==> Says(line, lower)
  {
    hide FoldAt, AnyCaseAt;
    forall i: nat ensures FoldAt(line, i, pat) <==> AnyCaseAt(line, i, lower) {
      FoldIs(line, i, pat, lower);
    }
    if i :| AnyCaseAt(line, i, lower) {
      AnyCaseWithin(line, i, lower);
      assert FoldAt(line, i, pat);
    }
  }

  lemma AnyCaseWithin(line: string, i: int, lower: string)
    requires AnyCaseAt(line, i, lower)
    ensures 0 <= i <= |line|
  {
  }

  lemma AcceptedIs(line: string)
    ensures IsAccept(line) <==> SaysAccepted(line)
  {
    hide FoldAt, AnyCaseAt;
    forall i: nat ensures FoldAt(line, i, "Accepted ") <==> AnyCaseAt(line, i, "accepted ")
                  ensures FoldAt(line, i, "client on socket") <==> AnyCaseAt(line, i, "client on socket") {
      FoldIs(line, i, "Accepted ", "accepted ");
      FoldIs(line, i, "client on socket", "client on socket");
    }
    if i, j :| AnyCaseAt(line, i, "accepted ") && AnyCaseAt(line, j, "client on socket")
               && OneLine(line, i + 9, j) {
      AnyCaseWithin(line, i, "accepted ");
      AnyCaseWithin(line, j, "client on socket");
      assert FoldAt(line, i, "Accepted ") && FoldAt(line, j, "client on socket");
      assert '\n' !in line[i + 9..j];
    }
    if IsAccept(line) {
      var i, j :| 0 <= i <= |line| && 0 <= j <= |line| && FoldAt(line, i, "Accepted ")
                  && FoldAt(line, j, "client on socket") && i + 9 <= j && '\n' !in line[i + 9..j];
      assert AnyCaseAt(line, i, "accepted ") && AnyCaseAt(line, j, "client on socket");
      forall k | i + 9 <= k < j ensures line[k] != '\n' {
        assert line[k] == line[i + 9..j][k - (i + 9)];
      }
      assert OneLine(line, i + 9, j);
    }
  }

  /** What a line means, by the words in it, in any case of letters and with any text around them. */
  lemma ClassifyIff(line: string)
    ensures Classify(line) ==
              if Says(line, "stopping raop server") then ServerStop
              else if SaysAccepted(line) then Accept
              else if Says(line, "connection closed") || Says(line, "raop_rtp_mirror stopping") then Close
              else Other
  {
    hide ContainsFold, IsAccept, Says, SaysAccepted;
    SaysIs(line, "Stopping RAOP Server", "stopping raop server");
    SaysIs(line, "Connection closed", "connection closed");
    SaysIs(line, "raop_rtp_mirror stopping", "raop_rtp_mirror stopping");
    AcceptedIs(line);
  }

  /** One line's effect on the open count, and the edge it reports. */
  function Track(open: nat, k: LineKind): (nat, Option<Edge>) {
    match k
    case ServerStop => (0, if open > 0 then Some(Disconnected) else None)
    case Accept => (open + 1, if open == 0 then Some(Connected) else None)
    case Close => if open == 0 then (0, None) else (open - 1, if open == 1 then Some(Disconnected) else None)
    case Other => (open, None)
  }

  class UxPlayClientTracker {
    var open: nat

    constructor ()
      ensures open == 0
    {
      open := 0;
    }

    method Feed(line: string) returns (edge: Option<Edge>)
      modifies this
      ensures (open, edge) == Track(old(open), Classify(line))
    {
      if ContainsFold(line, "Stopping RAOP Server") {
        var hadClients := open > 0;
        open := 0;
        return if hadClients then Some(Disconnected) else None;
      }
      if IsAccept(line) {
        open := open + 1;
        return if open == 1 then Some(Connected) else None;
      }
      if (ContainsFold(line, "Connection closed") || ContainsFold(line, "raop_rtp_mirror stopping")) && open > 0 {
        open := open - 1;
        if open == 0 {
          return Some(Disconnected);
        }
      }
      return None;
    }
  }

  // ----- whole logs -----

  /** The open count and the edges reported after a log, from a fresh tracker. */
  function TrackAll(log: seq<LineKind>): (r: (nat, seq<Edge>))
  {
    if log == [] then (0, [])
    else
      var (open, edges) := TrackAll(log[..|log| - 1]);
      var (open', edge) := Track(open, log[|log| - 1]);
      (open', if edge.Some? then edges + [edge.value] else edges)
  }

  function Weight(k: LineKind): int {
    match k
    case Accept => 1
    case Close => -1
    case _ => 0
  }

  function Sum(log: seq<LineKind>): int {
    if log == [] then 0 else Sum(log[..|log| - 1]) + Weight(log[|log| - 1])
  }

  /** The lines after the last server stop. */
  function SinceStop(log: seq<LineKind>): (r: seq<LineKind>)
  {
    if log == [] || log[|log| - 1] == ServerStop then []
    else SinceStop(log[..|log| - 1]) + [log[|log| - 1]]
  }

  /** m is the largest sum of accepts minus closes over the suffixes of the log, the empty one included. */
  ghost predicate IsMaxSuffixSum(log: seq<LineKind>, m: int) {
    && (forall i | 0 <= i <= |log| :: Sum(log[i..]) <= m)
    && exists i :: 0 <= i <= |log| && Sum(log[i..]) == m
  }

  lemma MaxSuffixSnoc(log: seq<LineKind>, k: LineKind, m: int)
    requires IsMaxSuffixSum(log, m)
    ensures IsMaxSuffixSum(log + [k], if m + Weight(k) > 0 then m + Weight(k) else 0)
  {
    var longer := log + [k];
    var m' := if m + Weight(k) > 0 then m + Weight(k) else 0;
    forall i | 0 <= i <= |log| ensures Sum(longer[i..]) == Sum(log[i..]) + Weight(k) {
      assert longer[i..][..|log| - i] == log[i..];
      assert longer[i..][|log| - i] == k;
    }
    assert longer[|longer|..] == [];
    var best :| 0 <= best <= |log| && Sum(log[best..]) == m;
    assert Sum(longer[if m + Weight(k) > 0 then best else |longer|..]) == m';
  }

  /** After any log, the open count is the largest suffix sum since the last server stop. */
  lemma {:induction false} OpenIsMaxSuffixSum(log: seq<LineKind>)
    ensures IsMaxSuffixSum(SinceStop(log), TrackAll(log).0)
  {
    if log == [] || log[|log| - 1] == ServerStop {
      var none: seq<LineKind> := [];
      assert none[0..] == none && Sum(none) == 0;
    } else {
      var init, last := log[..|log| - 1], log[|log| - 1];
      OpenIsMaxSuffixSum(init);
      assert Sum(SinceStop(init)[|SinceStop(init)|..]) == 0;
      MaxSuffixSnoc(SinceStop(init), last, TrackAll(init).0);
    }
  }

  /** Edges strictly alternate, starting with Connected, and end with Connected exactly while clients are open. */
  lemma {:induction false} EdgesAlternate(log: seq<LineKind>)
    ensures var (open, edges) := TrackAll(log);
            && (forall k | 0 <= k < |edges| :: edges[k] == if k % 2 == 0 then Connected else Disconnected)
            && (open > 0 <==> edges != [] && edges[|edges| - 1] == Connected)
  {
    if log != [] {
      EdgesAlternate(log[..|log| - 1]);
    }
  }
}
