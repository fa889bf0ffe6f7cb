/** `_parse_wifi_list`: nmcli's multiline listing as a list of networks to choose from. */
module WifiList {
  import opened Prelude
  import opened Text

  type Record = map<string, string>

  datatype Network = Network(ssid: string, signal: int, security: string)

  function Colon(line: string): (n: nat)
    ensures n <= |line|
  {
    if line == [] || line[0] == ':' then 0 else Colon(line[1..]) + 1
  }

  function Key(line: string): string {
    Strip(line[..Colon(line)])
  }

  function Value(line: string): string {
    if Colon(line) == |line| then "" else Strip(line[Colon(line) + 1..])
  }

  predicate Blank(line: string) {
    line == ""
  }

  predicate Heads(line: string) {
    !Blank(line) && Key(line) == "SSID"
  }

  // ---- Records ------------------------------------------------------------

  /** A listing read from the back: the fields before its first record boundary, and the
      records after it. A blank line and a line with an SSID are boundaries. */
  datatype Listing = Listing(head: Record, later: seq<Record>)

  function Closed(r: Record): seq<Record> {
    if r == map[] then [] else [r]
  }

  function Read(lines: seq<string>): Listing {
    if lines == [] then Listing(map[], [])
    else
      var rest := Read(lines[1..]);
      if Blank(lines[0]) then Listing(map[], Closed(rest.head) + rest.later)
      else if Heads(lines[0]) then Listing(map[], [map["SSID" := Value(lines[0])] + rest.head] + rest.later)
      else Listing(map[Key(lines[0]) := Value(lines[0])] + rest.head, rest.later)
  }

  function Records(lines: seq<string>): seq<Record> {
    Closed(Read(lines).head) + Read(lines).later
  }

  /** What follows starts a record anyway, or nothing follows. */
  predicate AtBoundary(lines: seq<string>) {
    lines == [] || Heads(lines[0]) || (Blank(lines[0]) && AtBoundary(lines[1..]))
  }

  lemma {:induction false} BoundaryHasNoHead(lines: seq<string>)
    requires AtBoundary(lines)
    ensures Read(lines).head == map[]
  {
  }

  /** Blank lines between records that start with an SSID make no difference: the
      listing means the same with and without them. */
  lemma {:induction false} BlankLinesDoNotMatter(before: seq<string>, blank: string, after: seq<string>)
    requires Blank(blank) && AtBoundary(after)
    ensures Records(before + [blank] + after) == Records(before + after)
    ensures Read(before + [blank] + after) == Read(before + after)
  {
    hide Heads, Key, Value;
    if before == [] {
      BoundaryHasNoHead(after);
      assert ([] + [blank] + after)[1..] == after && [] + after == after;
      assert Closed(map[]) + Read(after).later == Read(after).later;
    } else {
      BlankLinesDoNotMatter(before[1..], blank, after);
      assert (before + [blank] + after)[1..] == before[1..] + [blank] + after;
      assert (before + after)[1..] == before[1..] + after;
    }
  }

  // ---- Networks -----------------------------------------------------------

  function Get(r: Record, k: string, absent: string): string {
    if k in r then r[k] else absent
  }

  predicate Wanted(r: Record, exclude: set<string>) {
    var ssid := Get(r, "SSID", "");
    ssid != "" && ssid != "--" && ssid !in exclude
  }

  /** `int` as Python reads it is a parameter. */
  function NetworkOf(r: Record, toInt: string -> Option<int>): Network {
    var security := Get(r, "SECURITY", "");
    var signal := toInt(Get(r, "SIGNAL", "0"));
    Network(Get(r, "SSID", ""), if signal.Some? then signal.value else 0, if security == "--" then "" else security)
  }

  /** The first record of a network the user may choose. */
  ghost predicate First(records: seq<Record>, exclude: set<string>, i: int) {
    && 0 <= i < |records| && Wanted(records[i], exclude)
    && forall j | 0 <= j < i :: Get(records[j], "SSID", "") != Get(records[i], "SSID", "")
  }

  ghost function Listed(records: seq<Record>, exclude: set<string>, toInt: string -> Option<int>): seq<Network> {
    if records == [] then []
    else
      var n := |records| - 1;
      Listed(records[..n], exclude, toInt) + if First(records, exclude, n) then [NetworkOf(records[n], toInt)] else []
  }

  lemma FirstOfPrefix(records: seq<Record>, exclude: set<string>, i: int)
    requires 0 <= i < |records| - 1
    ensures First(records[..|records| - 1], exclude, i) <==> First(records, exclude, i)
  {
  }

  /** Exactly the first record of every network worth listing is listed. */
  lemma {:induction false} ListedIsFirsts(records: seq<Record>, exclude: set<string>, toInt: string -> Option<int>, n: Network)
    ensures n in Listed(records, exclude, toInt) <==>
              exists i | 0 <= i < |records| :: First(records, exclude, i) && n == NetworkOf(records[i], toInt)
  {
    if records != [] {
      var last := |records| - 1;
      var init := records[..last];
      ListedIsFirsts(init, exclude, toInt, n);
      if i :| 0 <= i < |init| && First(init, exclude, i) && n == NetworkOf(init[i], toInt) {
        FirstOfPrefix(records, exclude, i);
        assert First(records, exclude, i) && n == NetworkOf(records[i], toInt);
      }
      if i :| 0 <= i < |records| && First(records, exclude, i) && n == NetworkOf(records[i], toInt) {
        if i < last {
          FirstOfPrefix(records, exclude, i);
          assert First(init, exclude, i) && n == NetworkOf(init[i], toInt);
        }
      }
    }
  }

  ghost predicate DistinctSsids(s: seq<Network>) {
    forall i, j | 0 <= i < j < |s| :: s[i].ssid != s[j].ssid
  }

  lemma {:induction false} ListedIsDistinct(records: seq<Record>, exclude: set<string>, toInt: string -> Option<int>)
    ensures DistinctSsids(Listed(records, exclude, toInt))
  {
    if records != [] {
      var init := records[..|records| - 1];
      ListedIsDistinct(init, exclude, toInt);
      var before := Listed(init, exclude, toInt);
      forall k | 0 <= k < |before| ensures exists i | 0 <= i < |init| :: before[k].ssid == Get(init[i], "SSID", "") {
        ListedIsFirsts(init, exclude, toInt, before[k]);
        var i :| 0 <= i < |init| && First(init, exclude, i) && before[k] == NetworkOf(init[i], toInt);
        assert before[k].ssid == Get(init[i], "SSID", "");
      }
    }
  }

  // ---- The order ----------------------------------------------------------

  /** Python's stable sort, strongest signal first. */
  function Insert(n: Network, s: seq<Network>): seq<Network> {
    if s == [] || n.signal >= s[0].signal then [n] + s else [s[0]] + Insert(n, s[1..])
  }

  function Sorted(s: seq<Network>): seq<Network> {
    if s == [] then [] else Insert(s[0], Sorted(s[1..]))
  }

  ghost predicate Falling(s: seq<Network>) {
    |s| > 1 ==> s[0].signal >= s[1].signal && Falling(s[1..])
  }

  lemma {:induction false} FallingThroughout(s: seq<Network>, i: int, j: int)
    requires Falling(s) && 0 <= i < j < |s|
    ensures s[i].signal >= s[j].signal
  {
    if i > 0 {
      FallingThroughout(s[1..], i - 1, j - 1);
    } else if j > 1 {
      FallingThroughout(s[1..], 0, j - 1);
    }
  }

  /** The networks heard at one strength, in order. */
  function Level(s: seq<Network>, signal: int): seq<Network> {
    if s == [] then [] else (if s[0].signal == signal then [s[0]] else []) + Level(s[1..], signal)
  }

  lemma {:induction false} InsertIsFalling(n: Network, s: seq<Network>)
    requires Falling(s)
    ensures Falling(Insert(n, s))
  {
    if s == [] || n.signal >= s[0].signal {
      assert ([n] + s)[1..] == s;
    } else {
      InsertIsFalling(n, s[1..]);
      assert ([s[0]] + Insert(n, s[1..]))[1..] == Insert(n, s[1..]);
    }
  }

  lemma {:induction false} InsertKeeps(n: Network, s: seq<Network>)
    ensures multiset(Insert(n, s)) == multiset(s) + multiset{n}
  {
    if s != [] && n.signal < s[0].signal {
      InsertKeeps(n, s[1..]);
      assert s == [s[0]] + s[1..];
    }
  }

  lemma {:induction false} InsertIsStable(n: Network, s: seq<Network>, signal: int)
    ensures Level(Insert(n, s), signal) == (if n.signal == signal then [n] else []) + Level(s, signal)
  {
    if s == [] || n.signal >= s[0].signal {
      assert ([n] + s)[1..] == s;
    } else {
      var later := Insert(n, s[1..]);
      InsertIsStable(n, s[1..], signal);
      assert ([s[0]] + later)[1..] == later;
      hide Insert;
      assert [] + Level(s[1..], signal) == Level(s[1..], signal);
    }
  }

  lemma {:induction false} SortedIsFalling(s: seq<Network>)
    ensures Falling(Sorted(s))
  {
    if s != [] {
      SortedIsFalling(s[1..]);
      InsertIsFalling(s[0], Sorted(s[1..]));
    }
    hide Insert, Falling;
  }

  lemma {:induction false} SortedKeeps(s: seq<Network>)
    ensures multiset(Sorted(s)) == multiset(s)
  {
    hide Insert;
    if s != [] {
      SortedKeeps(s[1..]);
      InsertKeeps(s[0], Sorted(s[1..]));
      assert s == [s[0]] + s[1..];
    }
  }

  lemma {:induction false} SortedIsStable(s: seq<Network>, signal: int)
    ensures Level(Sorted(s), signal) == Level(s, signal)
  {
    hide Insert;
    if s != [] {
      SortedIsStable(s[1..], signal);
      InsertIsStable(s[0], Sorted(s[1..]), signal);
    }
  }

  /** The order is by falling signal, nothing is lost or invented, and networks heard
      equally well keep the order they came in. */
  lemma SortedMeaning(s: seq<Network>, signal: int)
    ensures Falling(Sorted(s)) && multiset(Sorted(s)) == multiset(s)
    ensures Level(Sorted(s), signal) == Level(s, signal)
  {
    hide Sorted, Level, Falling;
    SortedIsFalling(s);
    SortedKeeps(s);
    SortedIsStable(s, signal);
  }

  lemma {:induction false} InsertIsDistinct(n: Network, s: seq<Network>)
    requires DistinctSsids(s) && forall k | 0 <= k < |s| :: s[k].ssid != n.ssid
    ensures DistinctSsids(Insert(n, s))
  {
    if s != [] && n.signal < s[0].signal {
      var rest := Insert(n, s[1..]);
      InsertIsDistinct(n, s[1..]);
      InsertKeeps(n, s[1..]);
      forall k | 0 <= k < |rest| ensures rest[k].ssid != s[0].ssid {
        assert rest[k] in multiset(rest);
        assert rest[k] == n || rest[k] in s[1..];
      }
    }
  }

  lemma {:induction false} SortedIsDistinct(s: seq<Network>)
    requires DistinctSsids(s)
    ensures DistinctSsids(Sorted(s))
  {
    if s != [] {
      var rest := Sorted(s[1..]);
      SortedIsDistinct(s[1..]);
      SortedKeeps(s[1..]);
      forall k | 0 <= k < |rest| ensures rest[k].ssid != s[0].ssid {
        assert rest[k] in multiset(rest);
        assert rest[k] in s[1..];
      }
      InsertIsDistinct(s[0], rest);
    }
  }

  /** The list offered to the user: every network once, as its first record describes
      it, none unnamed or excluded, strongest first, and equally strong ones in the
      order they were listed. */
  lemma ChoiceList(records: seq<Record>, exclude: set<string>, toInt: string -> Option<int>, n: Network, signal: int)
    ensures var offered := Sorted(Listed(records, exclude, toInt));
            && (forall i, j | 0 <= i < j < |offered| :: offered[i].signal >= offered[j].signal)
            && DistinctSsids(offered)
            && (n in offered <==>
                exists i | 0 <= i < |records| :: First(records, exclude, i) && n == NetworkOf(records[i], toInt))
            && (n in offered ==> n.ssid != "" && n.ssid != "--" && n.ssid !in exclude)
            && Level(offered, signal) == Level(Listed(records, exclude, toInt), signal)
  {
    var listed := Listed(records, exclude, toInt);
    SortedMeaning(listed, signal);
    ListedIsDistinct(records, exclude, toInt);
    SortedIsDistinct(listed);
    ListedIsFirsts(records, exclude, toInt, n);
    assert n in Sorted(listed) <==> n in multiset(Sorted(listed));
    assert n in listed <==> n in multiset(listed);
    hide Listed, Sorted, Falling, DistinctSsids, Level;
    forall i, j | 0 <= i < j < |Sorted(listed)|
      ensures Sorted(listed)[i].signal >= Sorted(listed)[j].signal
    {
      FallingThroughout(Sorted(listed), i, j);
    }
  }

  // ---- The parser ---------------------------------------------------------

  ghost function Stripped(lines: seq<string>): seq<string> {
    if lines == [] then [] else [Strip(lines[0])] + Stripped(lines[1..])
  }

  method ReadRecords(output: string) returns (groups: seq<Record>)
    ensures groups == Records(Stripped(SplitLines(output)))
  {
    var lines := SplitLines(output);
    var current: Record := map[];
    groups := [];
    assert lines[0..] == lines;
    FinishStart(Read(Stripped(lines)));
    hide Read, Closed, Strip, Finish;
    for i := 0 to |lines|
      invariant groups + Finish(current, Read(Stripped(lines[i..]))) == Records(Stripped(lines))
    {
      assert lines[i..][0] == lines[i] && lines[i..][1..] == lines[i + 1..];
      groups, current := AddLine(groups, current, Strip(lines[i]), Stripped(lines[i + 1..]));
    }
    FinishEnd(current);
    if current != map[] {
      groups := groups + [current];
    }
  }

  /** One line of the listing; `later` is what is still to come. */
  method AddLine(groups: seq<Record>, current: Record, line: string, ghost later: seq<string>)
    returns (groups': seq<Record>, current': Record)
    ensures groups' + Finish(current', Read(later)) == groups + Finish(current, Read([line] + later))
  {
    groups', current' := groups, current;
    FinishStep(current, line, later);
    hide Key, Value, Read, Finish;
    if line == "" {
      if current != map[] {
        groups' := groups + [current];
        current' := map[];
      }
    } else {
      if Key(line) == "SSID" && current != map[] {
        groups' := groups + [current];
        current' := map[];
      }
      current' := current'[Key(line) := Value(line)];
    }
  }

  /** The records still to come, given the fields already gathered. */
  ghost function Finish(current: Record, p: Listing): seq<Record> {
    Closed(current + p.head) + p.later
  }

  lemma FinishStart(p: Listing)
    ensures Finish(map[], p) == Closed(p.head) + p.later
  {
    assert map[] + p.head == p.head;
  }

  lemma FinishEnd(current: Record)
    ensures Finish(current, Read([])) == if current == map[] then [] else [current]
  {
    assert current + map[] == current;
  }

  lemma FinishStep(current: Record, line: string, later: seq<string>)
    ensures var k, v := Key(line), Value(line);
            Finish(current, Read([line] + later)) ==
              if Blank(line) || (k == "SSID" && current != map[]) then
                Closed(current) + Finish(if Blank(line) then map[] else map[][k := v], Read(later))
              else Finish(current[k := v], Read(later))
  {
    hide Colon, Strip;
    assert ([line] + later)[1..] == later;
    if Blank(line) {
      assert current + map[] == current;
      FinishStart(Read(later));
    } else {
      FieldStep(current, Key(line), Value(line), Read(later));
    }
  }

  lemma FieldStep(current: Record, k: string, v: string, rest: Listing)
    ensures Finish(current[k := v], rest) == Finish(current, Listing(map[k := v] + rest.head, rest.later))
    ensures Finish(current, Listing(map[], [map[k := v] + rest.head] + rest.later)) ==
            Closed(current) + Finish(map[][k := v], rest)
    ensures current == map[] ==> Closed(current) == [] && current[k := v] == map[][k := v]
  {
    assert current[k := v] + rest.head == current + (map[k := v] + rest.head);
    assert current + map[] == current;
    assert map[][k := v] == map[k := v];
    assert k in map[k := v] + rest.head;
  }

  /** The names of the networks listed so far. */
  ghost function Taken(records: seq<Record>, exclude: set<string>): set<string> {
    if records == [] then {}
    else
      var n := |records| - 1;
      Taken(records[..n], exclude) + if Wanted(records[n], exclude) then {Get(records[n], "SSID", "")} else {}
  }

  lemma {:induction false} TakenMeaning(records: seq<Record>, exclude: set<string>, r: Record)
    requires Wanted(r, exclude)
    ensures Get(r, "SSID", "") in Taken(records, exclude) <==>
              exists j | 0 <= j < |records| :: Get(records[j], "SSID", "") == Get(r, "SSID", "")
  {
    if records != [] {
      var n := |records| - 1;
      TakenMeaning(records[..n], exclude, r);
      assert Get(records[n], "SSID", "") == Get(r, "SSID", "") ==> Wanted(records[n], exclude);
      assert forall j | 0 <= j < n :: records[..n][j] == records[j];
    }
  }

  method ParseWifiList(output: string, exclude: set<string>, toInt: string -> Option<int>) returns (networks: seq<Network>)
    ensures networks == Sorted(Listed(Records(Stripped(SplitLines(output))), exclude, toInt))
  {
    var groups := ReadRecords(output);
    hide Records, Stripped, SplitLines, Sorted;
    var seen: set<string> := {};
    networks := [];
    for i := 0 to |groups|
      invariant networks == Listed(groups[..i], exclude, toInt) && seen == Taken(groups[..i], exclude)
    {
      ghost var upTo := groups[..i + 1];
      assert upTo[..i] == groups[..i] && upTo[i] == groups[i];
      var g := groups[i];
      var ssid := Get(g, "SSID", "");
      if ssid == "" || ssid == "--" || ssid in exclude {
        continue;
      }
      TakenMeaning(groups[..i], exclude, g);
      assert First(upTo, exclude, i) <==> ssid !in seen;
      hide First, NetworkOf, Wanted;
      if ssid in seen {
        continue;
      }
      seen := seen + {ssid};
      networks := networks + [NetworkOf(g, toInt)];
    }
    assert groups[..|groups|] == groups;
    networks := Sorted(networks);
  }

  // ---- What the lines of a listing say ------------------------------------

  lemma {:induction false} FirstColon(key: string, rest: string)
    requires ':' !in key && (rest == "" || rest[0] == ':')
    ensures Colon(key + rest) == |key|
  {
    if key == "" {
      assert key + rest == rest;
    } else {
      assert (key + rest)[1..] == key[1..] + rest;
      FirstColon(key[1..], rest);
    }
  }

  /** The key of a line ends at its first colon, and the rest is the value, however many
      colons it has; both are trimmed. */
  lemma LineMeaning(key: string, value: string)
    requires ':' !in key
    ensures Key(key + ":" + value) == Strip(key) && Value(key + ":" + value) == Strip(value)
    ensures Key(key) == Strip(key) && Value(key) == ""
  {
    hide Strip, Colon;
    var line := key + ":" + value;
    assert line == key + (":" + value);
    FirstColon(key, ":" + value);
    assert line[..|key|] == key && line[|key| + 1..] == value;
    FirstColon(key, "");
    assert key + "" == key && key[..|key|] == key;
  }

  /** One network as nmcli prints it. */
  datatype Heard = Heard(ssid: string, signal: string, security: string)

  predicate Trimmed(s: string) {
    Strip(s) == s && Unbroken(s)
  }

  predicate Printable(h: Heard) {
    Trimmed(h.ssid) && Trimmed(h.signal) && Trimmed(h.security)
  }

  function Line(key: string, value: string): string {
    key + ":" + value
  }

  function Printed(heard: seq<Heard>): seq<string> {
    if heard == [] then []
    else
      [Line("SSID", heard[0].ssid), Line("SIGNAL", heard[0].signal), Line("SECURITY", heard[0].security)] + Printed(heard[1..])
  }

  function RecordOf(h: Heard): Record {
    map["SSID" := h.ssid, "SIGNAL" := h.signal, "SECURITY" := h.security]
  }

  function RecordsOf(heard: seq<Heard>): seq<Record> {
    if heard == [] then [] else [RecordOf(heard[0])] + RecordsOf(heard[1..])
  }

  lemma PlainIsStripped(s: string)
    requires s != "" && !IsSpace(s[0]) && !IsSpace(s[|s| - 1])
    ensures Strip(s) == s
  {
    LeftStripMeaning(s);
    RightStripMeaning(s);
  }

  /** A printed line is trimmed, unbroken, and says what was printed. */
  lemma PrintedLine(key: string, value: string)
    requires key in {"SSID", "SIGNAL", "SECURITY"} && Trimmed(value)
    ensures var line := Line(key, value);
            Strip(line) == line && Unbroken(line) && line != "" && Key(line) == key && Value(line) == value
  {
    hide Strip, Key, Value, IsSpace, IsBreak;
    var line := Line(key, value);
    KeyIsPlain(key);
    UnbrokenAppend(key, ":");
    UnbrokenAppend(key + ":", value);
    LineMeaning(key, value);
    TrimmedEnd(value);
    assert value != "" ==> line[|line| - 1] == value[|value| - 1];
    assert line[0] == key[0];
    PlainIsStripped(line);
  }

  lemma KeyIsPlain(key: string)
    requires key in {"SSID", "SIGNAL", "SECURITY"}
    ensures Unbroken(key) && Unbroken(":") && Strip(key) == key && ':' !in key && !IsSpace(key[0]) && !IsSpace(':')
  {
    PlainIsStripped(key);
    hide Strip;
  }

  lemma UnbrokenAppend(a: string, b: string)
    requires Unbroken(a) && Unbroken(b)
    ensures Unbroken(a + b)
  {
    hide IsBreak;
  }

  lemma TrimmedEnd(value: string)
    requires Trimmed(value)
    ensures value == "" || !IsSpace(value[|value| - 1])
  {
    RightStripMeaning(LeftStrip(value));
    hide IsSpace, LeftStrip, RightStrip;
  }

  ghost predicate Whole(lines: seq<string>) {
    forall i | 0 <= i < |lines| :: lines[i] != "" && Unbroken(lines[i])
  }

  lemma WholeCons(line: string, rest: seq<string>)
    requires line != "" && Unbroken(line) && Whole(rest)
    ensures Whole([line] + rest)
  {
    hide Unbroken;
  }

  lemma {:induction false} PrintedIsPlain(heard: seq<Heard>)
    requires forall i | 0 <= i < |heard| :: Printable(heard[i])
    ensures Whole(Printed(heard)) && Stripped(Printed(heard)) == Printed(heard)
  {
    hide Strip, Unbroken, Line, Whole, Stripped;
    if heard == [] {
      assert Whole([]) && Stripped([]) == [] by { NothingIsWhole(); }
    } else {
      var h := heard[0];
      PrintedLine("SSID", h.ssid);
      PrintedLine("SIGNAL", h.signal);
      PrintedLine("SECURITY", h.security);
      PrintedIsPlain(heard[1..]);
      var x, y, z, rest := Line("SSID", h.ssid), Line("SIGNAL", h.signal), Line("SECURITY", h.security), Printed(heard[1..]);
      StrippedCons(z, rest);
      StrippedCons(y, [z] + rest);
      StrippedCons(x, [y] + ([z] + rest));
      WholeCons(z, rest);
      WholeCons(y, [z] + rest);
      WholeCons(x, [y] + ([z] + rest));
      assert Printed(heard) == [x] + ([y] + ([z] + rest));
    }
  }

  lemma NothingIsWhole()
    ensures Whole([]) && Stripped([]) == []
  {
  }

  lemma StrippedCons(line: string, rest: seq<string>)
    ensures Stripped([line] + rest) == [Strip(line)] + Stripped(rest)
  {
    assert ([line] + rest)[1..] == rest;
  }

  lemma ReadCons(line: string, rest: seq<string>)
    requires !Blank(line)
    ensures Read([line] + rest) ==
            var r := Read(rest);
            if Key(line) == "SSID" then Listing(map[], [map["SSID" := Value(line)] + r.head] + r.later)
            else Listing(map[Key(line) := Value(line)] + r.head, r.later)
  {
    assert ([line] + rest)[1..] == rest;
  }

  lemma {:induction false} ReadPrinted(heard: seq<Heard>)
    requires forall i | 0 <= i < |heard| :: Printable(heard[i])
    ensures Read(Printed(heard)) == Listing(map[], RecordsOf(heard))
  {
    hide Strip, Unbroken, Key, Value, Line;
    if heard != [] {
      var h := heard[0];
      PrintedLine("SSID", h.ssid);
      PrintedLine("SIGNAL", h.signal);
      PrintedLine("SECURITY", h.security);
      ReadPrinted(heard[1..]);
      var x, y, z, rest := Line("SSID", h.ssid), Line("SIGNAL", h.signal), Line("SECURITY", h.security), Printed(heard[1..]);
      ReadCons(z, rest);
      ReadCons(y, [z] + rest);
      ReadCons(x, [y] + ([z] + rest));
      assert Printed(heard) == [x] + ([y] + ([z] + rest));
      hide Read, Printed, RecordsOf;
      assert map["SSID" := h.ssid] + (map["SIGNAL" := h.signal] + (map["SECURITY" := h.security] + map[])) == RecordOf(h);
    }
  }

  /** Reading what nmcli prints gives the networks it heard, in order, field by field. */
  lemma ListingReadsBack(heard: seq<Heard>)
    requires forall i | 0 <= i < |heard| :: Printable(heard[i])
    ensures Records(Stripped(SplitLines(Join(Printed(heard))))) == RecordsOf(heard)
  {
    hide Read, Printed, RecordsOf, SplitLines, Join, Stripped, Unbroken;
    PrintedIsPlain(heard);
    SplitOfJoin(Printed(heard));
    ReadPrinted(heard);
    assert [] + RecordsOf(heard) == RecordsOf(heard);
  }

  lemma {:induction false} RecordsOfAt(heard: seq<Heard>, i: nat)
    requires i < |heard|
    ensures |RecordsOf(heard)| == |heard| && RecordsOf(heard)[i] == RecordOf(heard[i])
  {
    if |heard| > 1 {
      RecordsOfAt(heard[1..], if i > 0 then i - 1 else 0);
    }
  }

  /** The i-th network heard is the first of its name, and one the user may choose. */
  ghost predicate Choosable(heard: seq<Heard>, exclude: set<string>, i: int) {
    && 0 <= i < |heard| && heard[i].ssid !in {"", "--"} && heard[i].ssid !in exclude
    && forall j | 0 <= j < i :: heard[j].ssid != heard[i].ssid
  }

  /** How it is offered: an unreadable signal counts as 0, and "--" means open. */
  function Offer(h: Heard, toInt: string -> Option<int>): Network {
    Network(h.ssid, if toInt(h.signal).Some? then toInt(h.signal).value else 0, if h.security == "--" then "" else h.security)
  }

  /** From nmcli's text to the list: exactly the networks that may be chosen are offered,
      each as its first entry says. */
  lemma OfferedAsHeard(heard: seq<Heard>, exclude: set<string>, toInt: string -> Option<int>, n: Network)
    requires forall i | 0 <= i < |heard| :: Printable(heard[i])
    ensures n in Sorted(Listed(Records(Stripped(SplitLines(Join(Printed(heard))))), exclude, toInt)) <==>
              exists i :: Choosable(heard, exclude, i) && n == Offer(heard[i], toInt)
  {
    hide SplitLines, Join, Stripped, Unbroken, Printed, Records, Sorted, Listed, DistinctSsids, Level, Strip, RecordsOf;
    ListingReadsBack(heard);
    var records := RecordsOf(heard);
    ChoiceList(records, exclude, toInt, n, 0);
    assert RecordsOf([]) == [] by { NoRecords(); }
    if heard != [] {
      RecordsOfAt(heard, 0);
      forall i | 0 <= i < |heard|
        ensures records[i] == RecordOf(heard[i])
      {
        RecordsOfAt(heard, i);
      }
      forall i | 0 <= i < |heard|
        ensures First(records, exclude, i) <==> Choosable(heard, exclude, i)
        ensures NetworkOf(records[i], toInt) == Offer(heard[i], toInt)
      {
      }
    }
  }

  lemma NoRecords()
    ensures RecordsOf([]) == []
  {
  }
}
