/** Traffic accounting from connection-tracking dumps (server/internal/flowmeter/flowmeter.go). */
module FlowMeter {

  type Address = string

  datatype FlowKey = FlowKey(src: Address, dst: Address, sport: nat, dport: nat, proto: nat)

  datatype Counters = Counters(bytesTX: nat, bytesRX: nat, pktsTX: nat, pktsRX: nat)

  const ZERO := Counters(0, 0, 0, 0)

  datatype Flow = Flow(key: FlowKey, counters: Counters)

  /** What is recorded for a flow in one sample. */
  datatype Row = Row(key: FlowKey, delta: Counters, user: string)

  /** One tick: the dump or the session query can fail; users maps client addresses to their users. */
  datatype Sample = DumpFailed | QueryFailed | Taken(flows: seq<Flow>, users: map<Address, string>)

  // ---- One sample -------------------------------------------------------------------

  function SubSat(a: nat, b: nat): nat {
    if a < b then 0 else a - b
  }

  function Minus(c: Counters, p: Counters): Counters {
    Counters(SubSat(c.bytesTX, p.bytesTX), SubSat(c.bytesRX, p.bytesRX), SubSat(c.pktsTX, p.pktsTX),
      SubSat(c.pktsRX, p.pktsRX))
  }

  /** The four counters of a flow. */
  datatype Which = BytesTX | BytesRX | PktsTX | PktsRX

  function Get(c: Counters, w: Which): nat {
    match w
    case BytesTX => c.bytesTX
    case BytesRX => c.bytesRX
    case PktsTX => c.pktsTX
    case PktsRX => c.pktsRX
  }

  predicate AtLeast(c: Counters, p: Counters) {
    c.bytesTX >= p.bytesTX && c.bytesRX >= p.bytesRX && c.pktsTX >= p.pktsTX && c.pktsRX >= p.pktsRX
  }

  /** A flow not seen in the sample before counts from its start. */
  function Delta(prev: map<FlowKey, Counters>, f: Flow): Counters {
    if f.key in prev then Minus(f.counters, prev[f.key]) else f.counters
  }

  /** The flows of clients, by key. */
  function Seen(flows: seq<Flow>, users: map<Address, string>): map<FlowKey, Counters> {
    if flows == [] then map[]
    else
      var before, f := Seen(flows[..|flows| - 1], users), flows[|flows| - 1];
      if f.key.src in users then before[f.key := f.counters] else before
  }

  function Rows(prev: map<FlowKey, Counters>, flows: seq<Flow>, users: map<Address, string>): seq<Row> {
    if flows == [] then []
    else
      var before, f := Rows(prev, flows[..|flows| - 1], users), flows[|flows| - 1];
      if f.key.src in users && Delta(prev, f) != ZERO then before + [Row(f.key, Delta(prev, f), users[f.key.src])]
        else before
  }

  function NextPrev(prev: map<FlowKey, Counters>, s: Sample): map<FlowKey, Counters> {
    match s
    case Taken(flows, users) => if users == map[] then map[] else Seen(flows, users)
    case _ => prev
  }

  function NewRows(prev: map<FlowKey, Counters>, s: Sample): seq<Row> {
    match s
    case Taken(flows, users) => if users == map[] then [] else Rows(prev, flows, users)
    case _ => []
  }

  /** How storing the rows of one sample goes. */
  datatype Saving = Saving(began: bool, inserts: nat -> bool, committed: bool)

  predicate Saves(saving: Saving, i: nat) {
    saving.began && saving.committed && saving.inserts(i)
  }

  /** The rows that reach the table. */
  function Stored(rows: seq<Row>, saving: Saving): seq<Row> {
    if rows == [] then []
    else
      var n := |rows| - 1;
      Stored(rows[..n], saving) + if Saves(saving, n) then [rows[n]] else []
  }

  /** The others: the snapshot has moved on, so their traffic is not counted again. */
  function Lost(rows: seq<Row>, saving: Saving): seq<Row> {
    if rows == [] then []
    else
      var n := |rows| - 1;
      Lost(rows[..n], saving) + if Saves(saving, n) then [] else [rows[n]]
  }

  lemma {:induction false} UncommittedStoresNothing(rows: seq<Row>, saving: Saving)
    requires !saving.began || !saving.committed
    ensures Stored(rows, saving) == []
  {
    if rows != [] {
      UncommittedStoresNothing(rows[..|rows| - 1], saving);
    }
  }

  class Meter {
    var prev: map<FlowKey, Counters>
    var table: seq<Row>

    constructor ()
      ensures prev == map[] && table == []
    {
      prev, table := map[], [];
    }

    method TakeSample(s: Sample, saving: Saving)
      modifies this
      ensures prev == NextPrev(old(prev), s) && table == old(table) + Stored(NewRows(old(prev), s), saving)
    {
      if s.DumpFailed? || s.QueryFailed? {
        return;
      }
      if s.users == map[] {
        prev := map[];
        return;
      }
      var curr: map<FlowKey, Counters> := map[];
      var rows := [];
      var i := 0;
      while i < |s.flows|
        invariant 0 <= i <= |s.flows|
        invariant curr == Seen(s.flows[..i], s.users) && rows == Rows(prev, s.flows[..i], s.users)
      {
        var f := s.flows[i];
        assert s.flows[..i + 1][..i] == s.flows[..i];
        if f.key.src in s.users {
          curr := curr[f.key := f.counters];
          var d := Delta(prev, f);
          if d != ZERO {
            rows := rows + [Row(f.key, d, s.users[f.key.src])];
          }
        }
        i := i + 1;
      }
      assert s.flows[..i] == s.flows;
      prev := curr;
      if rows != [] {
        SaveRows(rows, saving);
      }
    }

    /** One transaction; the error of an insert is logged, and the next row tried. */
    method SaveRows(rows: seq<Row>, saving: Saving)
      modifies this`table
      ensures table == old(table) + Stored(rows, saving)
    {
      if !saving.began {
        UncommittedStoresNothing(rows, saving);
        return;
      }
      var pending := [];
      var i := 0;
      while i < |rows|
        invariant 0 <= i <= |rows|
        invariant saving.committed ==> pending == Stored(rows[..i], saving)
      {
        assert rows[..i + 1][..i] == rows[..i];
        if saving.inserts(i) {
          pending := pending + [rows[i]];
        }
        i := i + 1;
      }
      assert rows[..i] == rows;
      if saving.committed {
        table := table + pending;
      } else {
        UncommittedStoresNothing(rows, saving);
      }
    }
  }

  // ---- Conservation -------------------------------------------------------------------

  /** What the rows record for a flow in one counter. */
  function Recorded(rows: seq<Row>, k: FlowKey, w: Which): nat {
    if rows == [] then 0
    else
      var before, r := Recorded(rows[..|rows| - 1], k, w), rows[|rows| - 1];
      if r.key == k then before + Get(r.delta, w) else before
  }

  /** The counters a dump shows for a flow, in order. */
  function Shown(flows: seq<Flow>, k: FlowKey): seq<Counters> {
    if flows == [] then []
    else Shown(flows[..|flows| - 1], k) + if flows[|flows| - 1].key == k then [flows[|flows| - 1].counters] else []
  }

  lemma {:induction false} NotShown(prev: map<FlowKey, Counters>, flows: seq<Flow>, users: map<Address, string>,
      k: FlowKey, w: Which)
    requires Shown(flows, k) == []
    ensures Recorded(Rows(prev, flows, users), k, w) == 0 && k !in Seen(flows, users)
    decreases |flows|
  {
    if flows != [] {
      NotShown(prev, flows[..|flows| - 1], users, k, w);
      RecordedMore(Rows(prev, flows[..|flows| - 1], users), Rows(prev, flows, users), k, w);
    }
  }

  lemma {:induction false} RecordedMore(rows: seq<Row>, more: seq<Row>, k: FlowKey, w: Which)
    requires more == rows || (more != [] && more[..|more| - 1] == rows)
    ensures Recorded(more, k, w) ==
            if more == rows || more[|more| - 1].key != k then Recorded(rows, k, w)
              else Recorded(rows, k, w) + Get(more[|more| - 1].delta, w)
  {
  }

  lemma OnlyOne<T>(a: seq<T>, x: T, c: T)
    requires a + [x] == [c]
    ensures a == [] && x == c
  {
    assert |a + [x]| == 1;
    assert (a + [x])[|a|] == x;
  }

  lemma {:induction false} ShownOnce(prev: map<FlowKey, Counters>, flows: seq<Flow>, users: map<Address, string>,
      k: FlowKey, c: Counters, w: Which)
    requires Shown(flows, k) == [c] && k.src in users
    ensures Recorded(Rows(prev, flows, users), k, w) == Get(Delta(prev, Flow(k, c)), w)
    ensures k in Seen(flows, users) && Seen(flows, users)[k] == c
    decreases |flows|
  {
    var before, f := flows[..|flows| - 1], flows[|flows| - 1];
    RecordedMore(Rows(prev, before, users), Rows(prev, flows, users), k, w);
    if f.key == k {
      OnlyOne(Shown(before, k), f.counters, c);
      NotShown(prev, before, users, k, w);
    } else {
      assert Shown(before, k) == [c];
      ShownOnce(prev, before, users, k, c, w);
    }
  }

  /** The sample fails, or shows the flow once with counters no lower than p. */
  predicate Continues(p: Counters, s: Sample, k: FlowKey) {
    s.Taken? ==> k.src in s.users && |Shown(s.flows, k)| == 1 && AtLeast(Shown(s.flows, k)[0], p)
  }

  /** The last counters known after the sample. */
  function Level(p: Counters, s: Sample, k: FlowKey): Counters
    requires Continues(p, s, k)
  {
    if s.Taken? then Shown(s.flows, k)[0] else p
  }

  predicate Present(p: Counters, ss: seq<Sample>, k: FlowKey)
    decreases |ss|
  {
    ss != [] ==> Continues(p, ss[0], k) && Present(Level(p, ss[0], k), ss[1..], k)
  }

  function LastCounters(p: Counters, ss: seq<Sample>, k: FlowKey): Counters
    requires Present(p, ss, k)
    decreases |ss|
  {
    if ss == [] then p else LastCounters(Level(p, ss[0], k), ss[1..], k)
  }

  /** All that is recorded for a flow over some samples. */
  function Total(prev: map<FlowKey, Counters>, ss: seq<Sample>, k: FlowKey, w: Which): nat
    decreases |ss|
  {
    if ss == [] then 0
    else Recorded(NewRows(prev, ss[0]), k, w) + Total(NextPrev(prev, ss[0]), ss[1..], k, w)
  }

  function Before(prev: map<FlowKey, Counters>, k: FlowKey): Counters {
    if k in prev then prev[k] else ZERO
  }

  lemma {:induction false} TakenAdds(prev: map<FlowKey, Counters>, flows: seq<Flow>, users: map<Address, string>,
      k: FlowKey, c: Counters, w: Which)
    requires Shown(flows, k) == [c] && k.src in users && AtLeast(c, Before(prev, k))
    ensures Get(Before(prev, k), w) + Recorded(Rows(prev, flows, users), k, w) == Get(c, w)
            && Before(Seen(flows, users), k) == c
  {
    ShownOnce(prev, flows, users, k, c, w);
  }

  /** A sample records what it adds to the last counters. */
  lemma {:induction false} SampleAdds(prev: map<FlowKey, Counters>, s: Sample, k: FlowKey, w: Which)
    requires Continues(Before(prev, k), s, k)
    ensures var c := Level(Before(prev, k), s, k);
            Get(Before(prev, k), w) + Recorded(NewRows(prev, s), k, w) == Get(c, w) && Before(NextPrev(prev, s), k) == c
  {
    if s.Taken? {
      var c := Shown(s.flows, k)[0];
      assert Shown(s.flows, k) == [c];
      TakenAdds(prev, s.flows, s.users, k, c, w);
    }
  }

  lemma {:induction false} Telescopes(prev: map<FlowKey, Counters>, ss: seq<Sample>, k: FlowKey, w: Which)
    requires Present(Before(prev, k), ss, k)
    ensures Get(Before(prev, k), w) + Total(prev, ss, k, w) == Get(LastCounters(Before(prev, k), ss, k), w)
    decreases |ss|
  {
    if ss != [] {
      SampleAdds(prev, ss[0], k, w);
      Telescopes(NextPrev(prev, ss[0]), ss[1..], k, w);
    }
  }

  // ---- Whose traffic it is --------------------------------------------------------------------

  /** The row is the flow's, of the user at its source address, and holds what each counter grew by. */
  ghost predicate IsRowOf(r: Row, f: Flow, prev: map<FlowKey, Counters>, users: map<Address, string>) {
    && r.key == f.key && f.key.src in users && r.user == users[f.key.src]
    && forall w: Which :: var now, was := Get(f.counters, w), if f.key in prev then Get(prev[f.key], w) else 0;
         Get(r.delta, w) == if now > was then now - was else 0
  }

  ghost predicate Grew(f: Flow, prev: map<FlowKey, Counters>) {
    exists w: Which :: Get(f.counters, w) > if f.key in prev then Get(prev[f.key], w) else 0
  }

  lemma DeltaIsGrowth(prev: map<FlowKey, Counters>, f: Flow, users: map<Address, string>)
    requires f.key.src in users
    ensures Delta(prev, f) != ZERO <==> Grew(f, prev)
    ensures IsRowOf(Row(f.key, Delta(prev, f), users[f.key.src]), f, prev, users)
  {
    var d, was := Delta(prev, f), if f.key in prev then prev[f.key] else ZERO;
    forall w: Which
      ensures Get(d, w) == (if Get(f.counters, w) > Get(was, w) then Get(f.counters, w) - Get(was, w) else 0)
    {
    }
    assert d == Counters(Get(d, BytesTX), Get(d, BytesRX), Get(d, PktsTX), Get(d, PktsRX));
  }

  /** The flows a sample makes rows of: those of a user that grew. */
  ghost function Growing(prev: map<FlowKey, Counters>, flows: seq<Flow>, users: map<Address, string>): seq<Flow> {
    if flows == [] then []
    else
      var before, f := Growing(prev, flows[..|flows| - 1], users), flows[|flows| - 1];
      if f.key.src in users && Grew(f, prev) then before + [f] else before
  }

  /** One row for each of these, in their order, for the user of its source address. */
  lemma {:induction false} RowsAreOfUsers(prev: map<FlowKey, Counters>, flows: seq<Flow>, users: map<Address, string>)
    ensures var rows, growing := Rows(prev, flows, users), Growing(prev, flows, users);
            |rows| == |growing| && forall i :: 0 <= i < |rows| ==> IsRowOf(rows[i], growing[i], prev, users)
  {
    if flows != [] {
      RowsAreOfUsers(prev, flows[..|flows| - 1], users);
      var f := flows[|flows| - 1];
      if f.key.src in users {
        DeltaIsGrowth(prev, f, users);
      }
    }
  }

  /** After a sample exactly the flows it showed of users are known, by their last counters. */
  lemma {:induction false} KnownIff(flows: seq<Flow>, users: map<Address, string>, prev: map<FlowKey, Counters>,
      k: FlowKey)
    ensures var now, shown := NextPrev(prev, Taken(flows, users)), Shown(flows, k);
            && (k in now <==> k.src in users && shown != [])
            && (k in now ==> now[k] == shown[|shown| - 1])
    decreases |flows|
  {
    if flows != [] {
      KnownIff(flows[..|flows| - 1], users, prev, k);
    }
  }

  // ---- What is stored ---------------------------------------------------------------------

  lemma {:induction false} RecordedLast(rows: seq<Row>, r: Row, k: FlowKey, w: Which)
    ensures Recorded(rows + [r], k, w) == Recorded(rows, k, w) + if r.key == k then Get(r.delta, w) else 0
  {
    assert (rows + [r])[..|rows|] == rows;
  }

  lemma OneRowMore(stored: seq<Row>, storedNow: seq<Row>, lost: seq<Row>, lostNow: seq<Row>, r: Row)
    requires || (storedNow == stored + [r] && lostNow == lost + [])
             || (storedNow == stored + [] && lostNow == lost + [r])
    ensures (storedNow == stored + [r] && lostNow == lost) || (storedNow == stored && lostNow == lost + [r])
  {
  }

  lemma {:induction false} StoredOrLost(rows: seq<Row>, saving: Saving, k: FlowKey, w: Which)
    ensures Recorded(rows, k, w) == Recorded(Stored(rows, saving), k, w) + Recorded(Lost(rows, saving), k, w)
  {
    if rows != [] {
      var front, r := rows[..|rows| - 1], rows[|rows| - 1];
      StoredOrLost(front, saving, k, w);
      assert rows == front + [r];
      RecordedLast(front, r, k, w);
      RecordedLast(Stored(front, saving), r, k, w);
      RecordedLast(Lost(front, saving), r, k, w);
      OneRowMore(Stored(front, saving), Stored(rows, saving), Lost(front, saving), Lost(rows, saving), r);
    }
  }

  lemma {:induction false} RecordedNothingIff(rows: seq<Row>, k: FlowKey, w: Which)
    ensures Recorded(rows, k, w) == 0 <==> forall i ::
            0 <= i < |rows| && rows[i].key == k ==> Get(rows[i].delta, w) == 0
  {
    if rows != [] {
      RecordedNothingIff(rows[..|rows| - 1], k, w);
    }
  }

  /** All that is stored for a flow over some samples. */
  function StoredTotal(prev: map<FlowKey, Counters>, ss: seq<Sample>, savings: seq<Saving>, k: FlowKey, w: Which): nat
    requires |savings| == |ss|
    decreases |ss|
  {
    if ss == [] then 0
    else
      Recorded(Stored(NewRows(prev, ss[0]), savings[0]), k, w)
        + StoredTotal(NextPrev(prev, ss[0]), ss[1..], savings[1..], k, w)
  }

  /** No row that was lost holds traffic of the flow in this counter. */
  predicate NothingLost(prev: map<FlowKey, Counters>, ss: seq<Sample>, savings: seq<Saving>, k: FlowKey, w: Which)
    requires |savings| == |ss|
    decreases |ss|
  {
    ss != [] ==>
      var lost := Lost(NewRows(prev, ss[0]), savings[0]);
      && (forall i :: 0 <= i < |lost| && lost[i].key == k ==> Get(lost[i].delta, w) == 0)
      && NothingLost(NextPrev(prev, ss[0]), ss[1..], savings[1..], k, w)
  }

  lemma {:induction false} StoredIff(prev: map<FlowKey, Counters>, ss: seq<Sample>, savings: seq<Saving>, k: FlowKey,
      w: Which)
    requires |savings| == |ss|
    ensures StoredTotal(prev, ss, savings, k, w) <= Total(prev, ss, k, w)
    ensures StoredTotal(prev, ss, savings, k, w) == Total(prev, ss, k, w) <==> NothingLost(prev, ss, savings, k, w)
    decreases |ss|
  {
    if ss != [] {
      var rows := NewRows(prev, ss[0]);
      StoredOrLost(rows, savings[0], k, w);
      RecordedNothingIff(Lost(rows, savings[0]), k, w);
      StoredIff(NextPrev(prev, ss[0]), ss[1..], savings[1..], k, w);
    }
  }

  /**
   * For a flow that appears, no more is stored until it goes than its last counters, whatever samples failed in
   * between, and exactly that much if and only if no row lost to a failing insert or commit held traffic of it.
   */
  lemma {:induction false} TrafficIsConserved(prev: map<FlowKey, Counters>, ss: seq<Sample>, savings: seq<Saving>,
      k: FlowKey, w: Which)
    requires |savings| == |ss| && k !in prev && Present(ZERO, ss, k)
    ensures StoredTotal(prev, ss, savings, k, w) <= Get(LastCounters(ZERO, ss, k), w)
    ensures StoredTotal(prev, ss, savings, k, w) == Get(LastCounters(ZERO, ss, k), w)
            <==> NothingLost(prev, ss, savings, k, w)
  {
    Telescopes(prev, ss, k, w);
    StoredIff(prev, ss, savings, k, w);
  }
}
