/** The abstract server the client is verified against. */
module Servers {
  import opened Wrappers
  import opened Seqs
  import opened Layout
  import opened Protocol
  import opened Timeline

  /** A signal or memory of the simulated design; only memories have a depth. */
  datatype Cell = Cell(width: nat, depth: Option<nat>)

  /** The design and its recorded values: `value(t, id, row)` is what was sampled at time t. */
  datatype Database = Database(design: map<string, Cell>, value: (Time, string, int) -> nat) {

    ghost predicate Sound() {
      forall t, id, row :: id in design ==> value(t, id, row) < Pow2(design[id].width) && design[id].width <= MAX_WIDTH
    }

    predicate ValidItem(item: WireItem) {
      item.id in design &&
      match item
      case Whole(id) => design[id].depth.None?
      case Rows(id, first, last) =>
        design[id].depth.Some? && 0 <= first < design[id].depth.value && 0 <= last < design[id].depth.value
    }

    predicate ValidItems(items: seq<WireItem>) { forall i | 0 <= i < |items| :: ValidItem(items[i]) }
  }

  /** The designation's variable was made from the server's description of it. */
  predicate Describes(db: Database, d: Designation) {
    d.variable.Identifier() in db.design ==> d.variable.width == db.design[d.variable.Identifier()].width
  }

  predicate DescribesAll(db: Database, ds: seq<Designation>) { forall i | 0 <= i < |ds| :: Describes(db, ds[i]) }

  function ItemCount(item: WireItem): (n: nat)
    ensures n >= 1
  {
    match item
    case Whole(_) => 1
    case Rows(_, first, last) => if first <= last then last - first + 1 else first - last + 1
  }

  function ItemRow(item: WireItem, offset: nat): int {
    match item
    case Whole(_) => 0
    case Rows(_, first, last) => if first <= last then first + offset else first - offset
  }

  function ItemValues(db: Database, item: WireItem, t: Time): (rows: seq<nat>)
    ensures |rows| == ItemCount(item)
  {
    seq<nat>(ItemCount(item), o requires 0 <= o < ItemCount(item) => db.value(t, item.id, ItemRow(item, o)))
  }

  /** The words of one sample, by the server's own knowledge of the design. */
  function EncodeItems(db: Database, items: seq<WireItem>, t: Time): seq<Word> {
    Blocks(ItemBlocks(db, items, t), |items|)
  }

  function ItemBlocks(db: Database, items: seq<WireItem>, t: Time): (blocks: seq<seq<Word>>)
    ensures |blocks| == |items| && forall i | 0 <= i < |items| :: blocks[i] == EncodeItem(db, items[i], t)
  {
    seq<seq<Word>>(|items|, i requires 0 <= i < |items| => EncodeItem(db, items[i], t))
  }

  function EncodeItem(db: Database, item: WireItem, t: Time): seq<Word> {
    var stride := if item.id in db.design then StrideOf(db.design[item.id].width) else -1;
    if stride < 0 then [] else PackRows(ItemValues(db, item, t), stride)
  }

  datatype Server = Server(greeted: bool, table: map<string, seq<WireItem>>, times: seq<Time>, status: SimulationStatus)

  function Encoded(db: Database, items: Option<seq<WireItem>>, times: seq<Time>): (samples: seq<WireSample>)
    ensures |samples| == |times|
  {
    seq(|times|, i requires 0 <= i < |times| =>
      WireSample(times[i], if items.Some? then EncodeItems(db, items.value, times[i]) else []))
  }

  /** The one reply a command gets. */
  function Reply(db: Database, s: Server, command: Command): (reply: ServerPacket)
    ensures reply.IsReply()
  {
    match command
    case ReferenceItems(_, items) => if db.ValidItems(items) then Response(Done) else Error("invalid designation")
    case QueryInterval(begin, end, items) =>
      if items.Some? && items.value !in s.table then Error("invalid reference")
      else
        var layout := if items.Some? then Some(s.table[items.value]) else None;
        Response(Samples(Encoded(db, layout, Query(s.times, begin, end))))
    case GetSimulationStatus => Response(StatusIs(s.status, if s.times == [] then 0 else Latest(s.times)))
    case _ => Response(Done)
  }

  function Bind(db: Database, table: map<string, seq<WireItem>>, command: Command): map<string, seq<WireItem>> {
    if command.ReferenceItems? && db.ValidItems(command.designations)
    then table[command.reference := command.designations] else table
  }

  /** The reference table after a series of commands. */
  function TableAfter(db: Database, commands: seq<Command>): map<string, seq<WireItem>> {
    if commands == [] then map[] else Bind(db, TableAfter(db, commands[..|commands| - 1]), commands[|commands| - 1])
  }

  const Started: Server := Server(false, map[], [0], Paused(1))

  // ---------------------------------------------------------------- encoding is packing

  function RowsAt(db: Database, ds: seq<Designation>, t: Time): (rows: seq<seq<nat>>)
    ensures |rows| == |ds| && forall i | 0 <= i < |ds| :: rows[i] == ItemValues(db, ds[i].Wire(), t)
  {
    seq(|ds|, i requires 0 <= i < |ds| => ItemValues(db, ds[i].Wire(), t))
  }

  lemma DescribedIsAddressable(db: Database, ds: seq<Designation>, t: Time)
    requires db.Sound() && DescribesAll(db, ds) && db.ValidItems(WireItems(ds))
    ensures AllAddressable(ds)
    ensures forall i | 0 <= i < |ds| :: InRange(ds[i], ItemValues(db, ds[i].Wire(), t))
  {
    forall i | 0 <= i < |ds|
      ensures ds[i].Addressable() && InRange(ds[i], ItemValues(db, ds[i].Wire(), t))
    {
      var d := ds[i];
      assert db.ValidItem(WireItems(ds)[i]);
      assert Describes(db, d);
      assert db.value(t, d.Wire().id, 0) < Pow2(db.design[d.Wire().id].width);
    }
  }

  lemma EncodingIsPacking(db: Database, ds: seq<Designation>, t: Time)
    requires db.Sound() && DescribesAll(db, ds) && db.ValidItems(WireItems(ds)) && AllAddressable(ds)
    ensures EncodeItems(db, WireItems(ds), t) == Pack(ds, RowsAt(db, ds, t))
  {
    var items, rows := ItemBlocks(db, WireItems(ds), t), RowBlocks(ds, RowsAt(db, ds, t));
    forall i | 0 <= i < |ds| ensures items[i] == rows[i] { EncodesItem(db, ds, t, i); }
    SameElements(items, rows);
  }

  lemma EncodesItem(db: Database, ds: seq<Designation>, t: Time, i: nat)
    requires DescribesAll(db, ds) && db.ValidItems(WireItems(ds)) && AllAddressable(ds) && i < |ds|
    ensures ItemBlocks(db, WireItems(ds), t)[i] == RowBlocks(ds, RowsAt(db, ds, t))[i]
  {
    assert db.ValidItem(WireItems(ds)[i]) && Describes(db, ds[i]) && StrideIsNat(ds[i]);
  }

  /** What is sent for a designation the server accepts exactly when it fits the design: the whole of a signal, or rows
      within the depth of a memory. */
  lemma WireAcceptedIff(db: Database, d: Designation)
    ensures var id := d.variable.Identifier();
            db.ValidItem(d.Wire()) <==>
            id in db.design &&
            match d
            case Scalar(_) => db.design[id].depth.None?
            case MemoryRow(_, index) => db.design[id].depth.Some? && 0 <= index < db.design[id].depth.value
            case MemoryRange(_, first, last) =>
              && db.design[id].depth.Some?
              && 0 <= first < db.design[id].depth.value && 0 <= last < db.design[id].depth.value
  {
  }

  /** The values a designation has at time t, row by row in the order designated. */
  function DatabaseValue(db: Database, d: Designation, t: Time): Value {
    if d.MemoryRange? then
      Many(seq<nat>(d.Count(), o requires 0 <= o < d.Count() => db.value(t, d.variable.Identifier(), d.Row(o))))
    else One(db.value(t, d.variable.Identifier(), d.Row(0)))
  }

  /** A scalar or row has one value; a range has those of its rows from the first to the last, in either direction. */
  lemma DatabaseValueIs(db: Database, d: Designation, t: Time)
    ensures var id, v := d.variable.Identifier(), DatabaseValue(db, d, t);
            match d
            case Scalar(_) => v == One(db.value(t, id, 0))
            case MemoryRow(_, index) => v == One(db.value(t, id, index))
            case MemoryRange(_, first, last) =>
              && v.Many? && |v.rows| == (if first <= last then last - first else first - last) + 1
              && forall o | 0 <= o < |v.rows| ::
                   v.rows[o] == db.value(t, id, if first <= last then first + o else first - o)
  {
    if d.MemoryRange? {
      var v := DatabaseValue(db, d, t);
      assert forall o | 0 <= o < |v.rows| :: v.rows[o] == db.value(t, d.variable.Identifier(), d.Row(o));
    }
  }

  lemma RowsAreDatabaseValue(db: Database, d: Designation, t: Time)
    ensures |ItemValues(db, d.Wire(), t)| == d.Count()
    ensures ValueOf(d, ItemValues(db, d.Wire(), t)) == DatabaseValue(db, d, t)
  {
    assert forall o: nat | o < d.Count() :: ItemRow(d.Wire(), o) == d.Row(o);
    if d.MemoryRange? {
      assert ItemValues(db, d.Wire(), t) == DatabaseValue(db, d, t).rows;
    }
  }

  /** Decoding with the list of designations the server encoded with gives the values in the database. */
  lemma DecodesToDatabase(db: Database, ds: seq<Designation>, t: Time, i: nat)
    requires db.Sound() && DescribesAll(db, ds) && db.ValidItems(WireItems(ds)) && i < |ds|
    ensures Extracted(ds[i], Subarray(EncodeItems(db, WireItems(ds), t), OffsetOf(ds, i))) ==
            Ok(DatabaseValue(db, ds[i], t))
  {
    DescribedIsAddressable(db, ds, t);
    EncodingIsPacking(db, ds, t);
    var rows := RowsAt(db, ds, t);
    LayoutRoundTrip(ds, rows, i);
    RowsAreDatabaseValue(db, ds[i], t);
  }
}
