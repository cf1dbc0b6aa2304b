/** Designations of values in a sample, their place in the sample's words, and their extraction. */
module Layout {
  import opened Wrappers
  import opened Seqs
  import opened Decimal
  import opened Texts

  const WORD: int := 0x1_0000_0000

  type Word = w: int | 0 <= w < 0x1_0000_0000

  datatype Variable = Variable(fullName: seq<string>, width: nat) {
    function Identifier(): string { Join(fullName, " ") }

    function Stride(): int { StrideOf(width) }
  }

  /** Words per value. */
  function StrideOf(width: nat): int { ToInt32((width + 31) / 32) }

  /** The bitwise-or of the source wraps its operand to a signed 32-bit integer. */
  function ToInt32(x: int): int {
    var m := x % WORD;
    if m >= 0x8000_0000 then m - WORD else m
  }

  const MAX_WIDTH: int := 0x10_0000_0000 - 32

  /** A word count is the width divided by 32, rounded up, exactly up to the width where it wraps. */
  lemma StrideRoundsUpIff(v: Variable)
    ensures 32 * (v.Stride() - 1) < v.width <= 32 * v.Stride() <==> v.width <= MAX_WIDTH
    ensures v.width <= MAX_WIDTH ==> v.Stride() >= 0
  {
  }

  datatype Designation =
    | Scalar(variable: Variable)
    | MemoryRow(variable: Variable, index: int)
    | MemoryRange(variable: Variable, first: int, last: int)
  {
    function Count(): (n: nat)
      ensures n >= 1
    {
      if MemoryRange? then (if last >= first then last - first + 1 else first - last + 1) else 1
    }

    function Size(): int { variable.Stride() * Count() }

    /** The rows designated, in the order in which their values are laid out. */
    function Row(offset: nat): int {
      match this
      case Scalar(_) => 0
      case MemoryRow(_, index) => index
      case MemoryRange(_, first, last) => if last >= first then first + offset else first - offset
    }

    function Wire(): WireItem {
      match this
      case Scalar(v) => Whole(v.Identifier())
      case MemoryRow(v, index) => Rows(v.Identifier(), index, index)
      case MemoryRange(v, first, last) => Rows(v.Identifier(), first, last)
    }

    function CanonicalKey(): string {
      match this
      case Scalar(v) => v.Identifier()
      case MemoryRow(v, index) => v.Identifier() + [NUL] + PrintInt(index)
      case MemoryRange(v, first, last) => v.Identifier() + [NUL] + PrintInt(first) + [NUL] + PrintInt(last)
    }

    predicate Addressable() { variable.width <= MAX_WIDTH }
  }

  /** An item designation as a command carries it. */
  datatype WireItem = Whole(id: string) | Rows(id: string, first: int, last: int)

  function WireItems(ds: seq<Designation>): (items: seq<WireItem>)
    ensures |items| == |ds|
  {
    seq(|ds|, i requires 0 <= i < |ds| => ds[i].Wire())
  }

  // ---------------------------------------------------------------- canonical keys

  /** Names as the protocol gives them: split at spaces, and here also free of NUL. */
  predicate WellNamed(v: Variable) {
    v.fullName != [] && forall i | 0 <= i < |v.fullName| :: Free(v.fullName[i], ' ') && Free(v.fullName[i], NUL)
  }

  /** Two designations of the same rows of the same variable, in the same form. */
  predicate SameTarget(a: Designation, b: Designation) {
    a.variable.fullName == b.variable.fullName
    && match (a, b)
       case (Scalar(_), Scalar(_)) => true
       case (MemoryRow(_, i), MemoryRow(_, j)) => i == j
       case (MemoryRange(_, f, l), MemoryRange(_, f', l')) => f == f' && l == l'
       case _ => false
  }

  lemma PrintIntFree(n: int)
    ensures Free(PrintInt(n), NUL)
  {
    PrintThenRead(if n < 0 then -n else n);
  }

  lemma PrintIntInjective(a: int, b: int)
    requires PrintInt(a) == PrintInt(b)
    ensures a == b
  {
    var x, y := if a < 0 then -a else a, if b < 0 then -b else b;
    PrintThenRead(x);
    PrintThenRead(y);
    assert Print(x)[0] != '-' && Print(y)[0] != '-';
    assert a < 0 ==> PrintInt(a)[1..] == Print(x);
    assert b < 0 ==> PrintInt(b)[1..] == Print(y);
  }

  function KeyParts(d: Designation): seq<string> {
    match d
    case Scalar(v) => [v.Identifier()]
    case MemoryRow(v, index) => [v.Identifier(), PrintInt(index)]
    case MemoryRange(v, first, last) => [v.Identifier(), PrintInt(first), PrintInt(last)]
  }

  lemma KeySplits(d: Designation)
    requires WellNamed(d.variable)
    ensures Split(d.CanonicalKey(), NUL) == KeyParts(d)
    ensures Split(d.variable.Identifier(), ' ') == d.variable.fullName
  {
    var v := d.variable;
    JoinFree(v.fullName, " ", NUL);
    SplitJoin(v.fullName, ' ');
    SplitFree(v.Identifier(), NUL);
    match d
    case Scalar(_) =>
    case MemoryRow(_, index) =>
      PrintIntFree(index);
      SplitFree(PrintInt(index), NUL);
      SplitAtSeparator(v.Identifier(), PrintInt(index), NUL);
    case MemoryRange(_, first, last) =>
      PrintIntFree(first);
      PrintIntFree(last);
      SplitFree(PrintInt(first), NUL);
      SplitFree(PrintInt(last), NUL);
      SplitAtSeparator(v.Identifier(), PrintInt(first), NUL);
      SplitAtSeparator(v.Identifier() + [NUL] + PrintInt(first), PrintInt(last), NUL);
  }

  /** Keys identify targets. */
  lemma CanonicalKeyIdentifies(a: Designation, b: Designation)
    requires WellNamed(a.variable) && WellNamed(b.variable)
    ensures a.CanonicalKey() == b.CanonicalKey() <==> SameTarget(a, b)
  {
    if a.CanonicalKey() == b.CanonicalKey() {
      KeySplits(a);
      KeySplits(b);
      var p, q := KeyParts(a), KeyParts(b);
      assert |p| == |q| && forall i | 0 <= i < |p| :: p[i] == q[i];
      if a.MemoryRow? && b.MemoryRow? {
        PrintIntInjective(a.index, b.index);
      } else if a.MemoryRange? && b.MemoryRange? {
        PrintIntInjective(a.first, b.first);
        PrintIntInjective(a.last, b.last);
      }
    }
  }

  /** Without the restriction on names two different targets can share a key. */
  lemma CanonicalKeyCollides(a: Designation, b: Designation)
    requires a == Scalar(Variable([['m', NUL, '0']], 1)) && b == MemoryRow(Variable(["m"], 1), 0)
    ensures a.CanonicalKey() == b.CanonicalKey() && !SameTarget(a, b)
  {
    assert PrintInt(0) == "0";
    assert "m" + [NUL] + "0" == ['m', NUL, '0'];
  }

  function Numbered(id: string, n: int): string { id + [NUL] + PrintInt(n) }

  /** The number after the last NUL and what is before it can be told apart. */
  lemma NumberedInjective(x: string, m: int, y: string, n: int)
    requires Numbered(x, m) == Numbered(y, n)
    ensures x == y && m == n
  {
    LastNul(x, m);
    LastNul(y, n);
    var s := Numbered(x, m);
    assert |x| == |y|;
    assert x == s[..|x|] == y;
    assert PrintInt(m) == s[|x| + 1..] == PrintInt(n);
    PrintIntInjective(m, n);
  }

  lemma LastNul(x: string, n: int)
    ensures var s := Numbered(x, n);
            |s| > |x| && s[|x|] == NUL && forall k | |x| < k < |s| :: s[k] != NUL
  {
    var p, s := PrintInt(n), Numbered(x, n);
    PrintIntFree(n);
    forall k | |x| < k < |s| ensures s[k] != NUL {
      assert s[k] == p[k - |x| - 1] && p[k - |x| - 1] in p;
    }
  }

  /** The same rows of variables with the same identifier, in the same form. */
  predicate SameItem(a: Designation, b: Designation) {
    a.variable.Identifier() == b.variable.Identifier()
    && match (a, b)
       case (Scalar(_), Scalar(_)) => true
       case (MemoryRow(_, i), MemoryRow(_, j)) => i == j
       case (MemoryRange(_, f, l), MemoryRange(_, f', l')) => f == f' && l == l'
       case _ => false
  }

  /** One identifier is another one with one or two numbers after NULs. */
  ghost predicate Extends(x: string, y: string) {
    (exists n :: x == Numbered(y, n)) || (exists m, n :: x == Numbered(Numbered(y, m), n))
  }

  lemma EqualKeys(a: Designation, b: Designation)
    requires a.CanonicalKey() == b.CanonicalKey()
    ensures SameItem(a, b) || Extends(a.variable.Identifier(), b.variable.Identifier())
            || Extends(b.variable.Identifier(), a.variable.Identifier())
  {
    var x, y := a.variable.Identifier(), b.variable.Identifier();
    match (a, b)
    case (Scalar(_), Scalar(_)) =>
    case (Scalar(_), MemoryRow(_, i)) => assert x == Numbered(y, i);
    case (Scalar(_), MemoryRange(_, f, l)) => assert x == Numbered(Numbered(y, f), l);
    case (MemoryRow(_, i), Scalar(_)) => assert y == Numbered(x, i);
    case (MemoryRange(_, f, l), Scalar(_)) => assert y == Numbered(Numbered(x, f), l);
    case (MemoryRow(_, i), MemoryRow(_, j)) => NumberedInjective(x, i, y, j);
    case (MemoryRow(_, i), MemoryRange(_, f, l)) => NumberedInjective(x, i, Numbered(y, f), l);
    case (MemoryRange(_, f, l), MemoryRow(_, j)) => NumberedInjective(Numbered(x, f), l, y, j);
    case (MemoryRange(_, f, l), MemoryRange(_, f', l')) =>
      NumberedInjective(Numbered(x, f), l, Numbered(y, f'), l');
      NumberedInjective(x, f, y, f');
  }

  lemma ExtendingCollides(x: string, y: string) returns (a: Designation, b: Designation)
    requires Extends(x, y)
    ensures a.variable.Identifier() == x && b.variable.Identifier() == y && a.CanonicalKey() == b.CanonicalKey() &&
            !SameItem(a, b)
  {
    a := Scalar(Variable([x], 1));
    if n :| x == Numbered(y, n) {
      b := MemoryRow(Variable([y], 1), n);
    } else {
      var m, n :| x == Numbered(Numbered(y, m), n);
      b := MemoryRange(Variable([y], 1), m, n);
    }
  }

  ghost predicate KeysIdentify(ids: set<string>) {
    forall a: Designation, b: Designation | a.variable.Identifier() in ids && b.variable.Identifier() in ids ::
      a.CanonicalKey() == b.CanonicalKey() ==> SameItem(a, b)
  }

  /** Over given identifiers keys tell designations apart exactly when none of these is another one with one or two
      numbers after NULs. */
  lemma KeysIdentifyIff(ids: set<string>)
    ensures KeysIdentify(ids) <==> forall x, y | x in ids && y in ids :: !Extends(x, y)
  {
    if x, y :| x in ids && y in ids && Extends(x, y) {
      var a, b := ExtendingCollides(x, y);
    } else {
      forall a: Designation, b: Designation
        | a.variable.Identifier() in ids && b.variable.Identifier() in ids && a.CanonicalKey() == b.CanonicalKey()
        ensures SameItem(a, b)
      {
        EqualKeys(a, b);
      }
    }
  }

  // ---------------------------------------------------------------- words

  /** The number a run of words spells, most significant word first. */
  function FromWords(ws: seq<Word>): nat {
    if ws == [] then 0 else FromWords(ws[..|ws| - 1]) * WORD + ws[|ws| - 1]
  }

  function ToWords(value: nat, count: nat): (ws: seq<Word>)
    ensures |ws| == count
  {
    if count == 0 then [] else ToWords(value / WORD, count - 1) + [value % WORD]
  }

  function WordSpan(count: nat): nat { if count == 0 then 1 else WordSpan(count - 1) * WORD }

  function Pow2(n: nat): nat { if n == 0 then 1 else 2 * Pow2(n - 1) }

  lemma {:induction false} WordsRoundTrip(value: nat, count: nat)
    requires value < WordSpan(count)
    ensures FromWords(ToWords(value, count)) == value
  {
    if count > 0 {
      WordsRoundTrip(value / WORD, count - 1);
      assert ToWords(value, count)[..count - 1] == ToWords(value / WORD, count - 1);
    }
  }

  /** The first word is the most significant one. */
  lemma {:induction false} MostSignificantFirst(w: Word, ws: seq<Word>)
    ensures FromWords([w] + ws) == w * WordSpan(|ws|) + FromWords(ws)
  {
    if ws == [] {
      assert FromWords([w][..0]) == 0;
    } else {
      var n := |ws| - 1;
      MostSignificantFirst(w, ws[..n]);
      assert ([w] + ws)[..n + 1] == [w] + ws[..n];
      SpanSpreads(w, WordSpan(n), FromWords(ws[..n]));
    }
  }

  lemma SpanSpreads(w: nat, span: nat, low: nat)
    ensures (w * span + low) * WORD == w * (span * WORD) + low * WORD
  {
  }

  lemma {:induction false} NumberRoundTrip(ws: seq<Word>)
    ensures ToWords(FromWords(ws), |ws|) == ws
  {
    if ws != [] {
      NumberRoundTrip(ws[..|ws| - 1]);
      assert ws == ws[..|ws| - 1] + [ws[|ws| - 1]];
    }
  }

  lemma {:induction false} Pow2Monotone(m: nat, n: nat)
    requires m <= n
    ensures 1 <= Pow2(m) <= Pow2(n)
    decreases n
  {
    if m < n { Pow2Monotone(m, n - 1); } else if n > 0 { Pow2Monotone(m - 1, n - 1); }
  }

  lemma {:induction false} SpanIsPow2(count: nat)
    ensures WordSpan(count) == Pow2(32 * count)
  {
    if count > 0 {
      SpanIsPow2(count - 1);
      Pow2Of32(32 * (count - 1));
    }
  }

  lemma Pow2Of32(n: nat)
    ensures Pow2(n + 32) == Pow2(n) * WORD
  {
    assert Pow2(n + 8) == 256 * Pow2(n) by {
      assert Pow2(n + 4) == 16 * Pow2(n) by { assert Pow2(n + 2) == 4 * Pow2(n); }
      assert Pow2(n + 6) == 4 * Pow2(n + 4);
    }
    Pow2Of8(n + 8);
    Pow2Of8(n + 16);
    Pow2Of8(n + 24);
  }

  lemma Pow2Of8(n: nat)
    ensures Pow2(n + 8) == 256 * Pow2(n)
  {
    assert Pow2(n + 4) == 16 * Pow2(n) by { assert Pow2(n + 2) == 4 * Pow2(n); }
    assert Pow2(n + 6) == 4 * Pow2(n + 4);
  }

  lemma WidthFitsStride(v: Variable)
    requires v.width <= MAX_WIDTH
    ensures v.Stride() >= 0 && Pow2(v.width) <= WordSpan(v.Stride())
  {
    SpanIsPow2(v.Stride());
    Pow2Monotone(v.width, 32 * v.Stride());
  }

  // ---------------------------------------------------------------- extraction

  datatype Fault = RangeError | TypeError | ReferenceError | FrozenError

  datatype Value = One(n: nat) | Many(rows: seq<nat>)

  /** Reading row `offset` of a range: the bound check of the source, then the words. */
  function RawValue(data: seq<Word>, stride: int, count: nat, offset: nat): Result<nat, Fault> {
    if offset > count then Err(RangeError)
    else if stride <= 0 then Ok(0)
    else if stride * (offset + 1) > |data| then Err(TypeError)
    else
      RowStart(stride, offset);
      Ok(FromWords(data[stride * offset..stride * (offset + 1)]))
  }

  lemma RowStart(stride: nat, offset: nat)
    ensures 0 <= stride * offset <= stride * (offset + 1) == stride * offset + stride
  {
  }

  /** Reading fails with a range error exactly beyond the bound, and with a type error exactly where words are
      missing. */
  lemma RawValueFaults(data: seq<Word>, stride: int, count: nat, offset: nat)
    ensures RawValue(data, stride, count, offset) == Err(RangeError) <==> offset > count
    ensures RawValue(data, stride, count, offset) == Err(TypeError) <==>
              offset <= count && stride > 0 && |data| < stride * (offset + 1)
    ensures RawValue(data, stride, count, offset).Err? ==>
              RawValue(data, stride, count, offset).error in {RangeError, TypeError}
  {
  }

  method BigintFromRaw(data: seq<Word>, stride: int, count: nat, offset: nat := 0) returns (r: Result<nat, Fault>)
    ensures r == RawValue(data, stride, count, offset)
  {
    if !(offset <= count) {
      return Err(RangeError);
    }
    var value: nat := 0;
    var base := stride * offset;
    if stride > 0 { RowStart(stride, offset); }
    var index := 0;
    while index < stride
      invariant 0 <= index && (index <= stride || index == 0)
      invariant index > 0 ==> 0 <= base && base + index <= |data|
      invariant value == if index > 0 then FromWords(data[base..base + index]) else 0
    {
      if base + index >= |data| {
        return Err(TypeError); // an element past the end is undefined, which BigInt rejects
      }
      assert data[base..base + index + 1][..index] == data[base..base + index];
      value := value * WORD + data[base + index];
      index := index + 1;
    }
    return Ok(value);
  }

  function Subarray(data: seq<Word>, offset: int): seq<Word> {
    if offset < 0 then (if |data| + offset < 0 then data else data[|data| + offset..])
    else if offset > |data| then [] else data[offset..]
  }

  /** What is left from an offset on, which counts from the end if it is negative. */
  lemma SubarrayIsSuffix(data: seq<Word>, offset: int)
    ensures var rest := Subarray(data, offset);
            && rest <= data[|data| - |rest|..]
            && |rest| == if offset < 0 then (if -offset < |data| then -offset else |data|)
                         else (if offset < |data| then |data| - offset else 0)
  {
  }

  function RowValues(data: seq<Word>, stride: int, count: nat, upto: nat): Result<seq<nat>, Fault> {
    if upto == 0 then Ok([])
    else
      var front := RowValues(data, stride, count, upto - 1);
      if front.Err? then front
      else match RawValue(data, stride, count, upto - 1)
           case Ok(n) => Ok(front.value + [n])
           case Err(e) => Err(e)
  }

  function Extracted(d: Designation, data: seq<Word>): Result<Value, Fault> {
    if d.MemoryRange? then
      match RowValues(data, d.variable.Stride(), d.Count(), d.Count())
      case Ok(rows) => Ok(Many(rows))
      case Err(e) => Err(e)
    else
      match RawValue(data, d.variable.Stride(), 1, 0)
      case Ok(n) => Ok(One(n))
      case Err(e) => Err(e)
  }

  method ExtractFromRaw(d: Designation, data: seq<Word>) returns (r: Result<Value, Fault>)
    ensures r == Extracted(d, data)
  {
    if d.MemoryRange? {
      var rows: seq<nat> := [];
      var offset := 0;
      while offset < d.Count()
        invariant 0 <= offset <= d.Count()
        invariant RowValues(data, d.variable.Stride(), d.Count(), offset) == Ok(rows)
      {
        var row := BigintFromRaw(data, d.variable.Stride(), d.Count(), offset);
        if row.Err? {
          FaultsStick(data, d.variable.Stride(), d.Count(), offset + 1, d.Count());
          return Err(row.error);
        }
        rows := rows + [row.value];
        offset := offset + 1;
      }
      return Ok(Many(rows));
    } else {
      var n := BigintFromRaw(data, d.variable.Stride(), 1);
      return if n.Ok? then Ok(One(n.value)) else Err(n.error);
    }
  }

  lemma {:induction false} FaultsStick(data: seq<Word>, stride: int, count: nat, from: nat, upto: nat)
    requires from <= upto && RowValues(data, stride, count, from).Err?
    ensures RowValues(data, stride, count, upto) == RowValues(data, stride, count, from)
    decreases upto
  {
    if from < upto { FaultsStick(data, stride, count, from, upto - 1); }
  }

  // ---------------------------------------------------------------- references

  datatype Handle = Handle(designation: Designation, reference: UnboundReference, offset: int)

  /** The first word of designation i when a list of designations is laid out in order. */
  function OffsetOf(ds: seq<Designation>, i: nat): int
    requires i <= |ds|
  {
    if i == 0 then 0 else OffsetOf(ds, i - 1) + ds[i - 1].Size()
  }

  lemma {:induction false} OffsetOfPrefix(ds: seq<Designation>, more: seq<Designation>, i: nat)
    requires i <= |ds|
    ensures OffsetOf(ds + more, i) == OffsetOf(ds, i)
  {
    if i > 0 { OffsetOfPrefix(ds, more, i - 1); }
  }

  function DesignationsOf(handles: seq<Handle>): (ds: seq<Designation>)
    ensures |ds| == |handles|
  {
    if handles == [] then [] else DesignationsOf(handles[..|handles| - 1]) + [handles[|handles| - 1].designation]
  }

  /** Each handle of a reference starts where the designations before it end. */
  ghost predicate LaidOut(handles: seq<Handle>, reference: UnboundReference) {
    var ds := DesignationsOf(handles);
    forall i | 0 <= i < |handles| :: handles[i] == Handle(ds[i], reference, OffsetOf(ds, i))
  }

  lemma LaidOutExtends(handles: seq<Handle>, reference: UnboundReference, d: Designation)
    requires LaidOut(handles, reference)
    ensures var ds := DesignationsOf(handles);
            var longer := handles + [Handle(d, reference, OffsetOf(ds, |ds|))];
            LaidOut(longer, reference) && DesignationsOf(longer) == ds + [d] &&
            OffsetOf(ds + [d], |ds|) == OffsetOf(ds, |ds|)
  {
    var ds := DesignationsOf(handles);
    var longer := handles + [Handle(d, reference, OffsetOf(ds, |ds|))];
    assert longer[..|longer| - 1] == handles;
    forall i | 0 <= i <= |ds|
      ensures OffsetOf(ds + [d], i) == OffsetOf(ds, i)
    {
      OffsetOfPrefix(ds, [d], i);
    }
  }

  class UnboundReference {
    var frozen: bool
    var offset: int
    var handles: seq<Handle>

    ghost function Designations(): (ds: seq<Designation>)
      reads this`handles
    {
      DesignationsOf(handles)
    }

    ghost predicate Valid()
      reads this
    {
      offset == OffsetOf(Designations(), |Designations()|) && LaidOut(handles, this)
    }

    constructor ()
      ensures Valid() && !frozen && Designations() == []
    {
      frozen, offset, handles := false, 0, [];
    }

    method Add(d: Designation) returns (r: Result<Handle, Fault>)
      requires Valid()
      modifies this
      ensures Valid() && frozen == old(frozen)
      ensures old(frozen) ==> r == Err(FrozenError) && Designations() == old(Designations())
      ensures !old(frozen) ==> Designations() == old(Designations()) + [d] &&
                               r == Ok(Handle(d, this, OffsetOf(Designations(), |Designations()| - 1)))
    {
      if frozen {
        return Err(FrozenError);
      }
      LaidOutExtends(handles, this, d);
      var handle := Handle(d, this, offset);
      handles := handles + [handle];
      offset := offset + d.Size();
      return Ok(handle);
    }

    method Freeze()
      modifies this`frozen
      ensures frozen
    {
      frozen := true;
    }

    method CxxrtlItemDesignations() returns (items: seq<WireItem>)
      ensures items == WireItems(Designations())
    {
      items := [];
      for i := 0 to |handles|
        invariant items == WireItems(DesignationsOf(handles[..i]))
      {
        assert handles[..i + 1][..i] == handles[..i];
        items := items + [handles[i].designation.Wire()];
      }
      assert handles[..|handles|] == handles;
    }
  }

  datatype Sample = Sample(time: int, reference: UnboundReference, variableData: seq<Word>) {

    /** Extraction refuses a handle of another reference. */
    function Extract(handle: Handle): Result<Value, Fault> {
      if handle.reference != reference then Err(ReferenceError)
      else Extracted(handle.designation, Subarray(variableData, handle.offset))
    }
  }

  /** Extraction refuses exactly the handles of other references. */
  lemma ForeignHandleRefused(sample: Sample, handle: Handle)
    ensures sample.Extract(handle) == Err(ReferenceError) <==> handle.reference != sample.reference
  {
    ExtractedFaults(handle.designation, Subarray(sample.variableData, handle.offset));
  }

  lemma ExtractedFaults(d: Designation, data: seq<Word>)
    ensures Extracted(d, data).Err? ==> Extracted(d, data).error in {RangeError, TypeError}
  {
    if d.MemoryRange? { RowFaults(data, d.variable.Stride(), d.Count(), d.Count()); }
  }

  lemma {:induction false} RowFaults(data: seq<Word>, stride: int, count: nat, upto: nat)
    ensures RowValues(data, stride, count, upto).Err? ==>
              RowValues(data, stride, count, upto).error in {RangeError, TypeError}
  {
    if upto > 0 { RowFaults(data, stride, count, upto - 1); }
  }

  /** Extraction through a handle of the sample's own reference reads the designation's place in the layout. */
  lemma HandleReadsItsPlace(reference: UnboundReference, sample: Sample, i: nat)
    requires reference.Valid() && sample.reference == reference && i < |reference.handles|
    ensures var ds := reference.Designations();
            sample.Extract(reference.handles[i]) == Extracted(ds[i], Subarray(sample.variableData, OffsetOf(ds, i)))
  {
  }

  // ---------------------------------------------------------------- the layout tiles the words

  predicate AllAddressable(ds: seq<Designation>) { forall i | 0 <= i < |ds| :: ds[i].Addressable() }

  lemma SizeNonNegative(d: Designation)
    requires d.Addressable()
    ensures d.variable.Stride() >= 0 && d.Size() >= 0
  {
    StrideRoundsUpIff(d.variable);
  }

  lemma {:induction false} OffsetsOrdered(ds: seq<Designation>, i: nat, j: nat)
    requires AllAddressable(ds) && i < j <= |ds|
    ensures 0 <= OffsetOf(ds, i) <= OffsetOf(ds, i) + ds[i].Size() <= OffsetOf(ds, j)
    decreases j
  {
    SizeNonNegative(ds[i]);
    if i + 1 < j {
      OffsetsOrdered(ds, i, j - 1);
      SizeNonNegative(ds[j - 1]);
    } else if i > 0 {
      OffsetsOrdered(ds, i - 1, i);
    }
  }

  ghost predicate Owns(ds: seq<Designation>, i: int, w: int) {
    0 <= i < |ds| && OffsetOf(ds, i) <= w < OffsetOf(ds, i) + ds[i].Size()
  }

  /** Every word of the sample lies in the slice of exactly one handle. */
  lemma LayoutTiles(ds: seq<Designation>, w: nat)
    requires AllAddressable(ds)
    ensures w < OffsetOf(ds, |ds|) <==> exists i :: Owns(ds, i, w)
    ensures forall i, j :: Owns(ds, i, w) && Owns(ds, j, w) ==> i == j
  {
    forall i, j | Owns(ds, i, w) && Owns(ds, j, w)
      ensures i == j
    {
      if i < j { OffsetsOrdered(ds, i, j); } else if j < i { OffsetsOrdered(ds, j, i); }
    }
    forall i | Owns(ds, i, w)
      ensures w < OffsetOf(ds, |ds|)
    {
      OffsetsOrdered(ds, i, |ds|);
    }
    if w < OffsetOf(ds, |ds|) {
      var i := OwnerOf(ds, w, |ds|);
      assert Owns(ds, i, w);
    }
  }

  lemma {:induction false} OwnerOf(ds: seq<Designation>, w: nat, upto: nat) returns (i: nat)
    requires upto <= |ds| && w < OffsetOf(ds, upto)
    ensures Owns(ds, i, w)
  {
    if w >= OffsetOf(ds, upto - 1) { i := upto - 1; } else { i := OwnerOf(ds, w, upto - 1); }
  }

  // ---------------------------------------------------------------- packing and extracting

  function PackRows(rows: seq<nat>, stride: nat): (ws: seq<Word>)
    ensures |ws| == stride * |rows|
  {
    PackFirstRows(rows, stride, |rows|)
  }

  function PackFirstRows(rows: seq<nat>, stride: nat, n: nat): (ws: seq<Word>)
    requires n <= |rows|
    ensures |ws| == stride * n
  {
    if n == 0 then [] else
      RowStart(stride, n - 1);
      PackFirstRows(rows, stride, n - 1) + ToWords(rows[n - 1], stride)
  }

  /** The words of every designation's rows. */
  function RowBlocks(ds: seq<Designation>, rows: seq<seq<nat>>): (blocks: seq<seq<Word>>)
    requires |rows| == |ds| && AllAddressable(ds)
    ensures |blocks| == |ds|
    ensures forall i | 0 <= i < |ds| :: StrideIsNat(ds[i]) && blocks[i] == PackRows(rows[i], ds[i].variable.Stride())
  {
    seq<seq<Word>>(|ds|, i requires 0 <= i < |ds| =>
      SizeNonNegative(ds[i]);
      PackRows(rows[i], ds[i].variable.Stride()))
  }

  predicate StrideIsNat(d: Designation) { d.variable.Stride() >= 0 }

  /** The rows of every designation packed one after the other. */
  function Pack(ds: seq<Designation>, rows: seq<seq<nat>>): seq<Word>
    requires |rows| == |ds| && AllAddressable(ds)
  {
    Blocks(RowBlocks(ds, rows), |ds|)
  }

  /** As many rows as designated, each value within the variable's width. */
  predicate InRange(d: Designation, rows: seq<nat>) {
    |rows| == d.Count() && forall o | 0 <= o < |rows| :: rows[o] < Pow2(d.variable.width)
  }

  function ValueOf(d: Designation, rows: seq<nat>): Value
    requires |rows| == d.Count()
  {
    if d.MemoryRange? then Many(rows) else One(rows[0])
  }

  lemma {:induction false} PackRowsAt(rows: seq<nat>, stride: nat, n: nat, o: nat)
    requires o < n <= |rows|
    ensures Occupies(PackFirstRows(rows, stride, n), stride * o, stride * (o + 1), ToWords(rows[o], stride))
  {
    RowStart(stride, n - 1);
    RowStart(stride, o);
    var front, back := PackFirstRows(rows, stride, n - 1), ToWords(rows[n - 1], stride);
    if o < n - 1 {
      PackRowsAt(rows, stride, n - 1, o);
      OccupiesFront(front, back, stride * o, stride * (o + 1), ToWords(rows[o], stride));
    } else {
      OccupiesBack(front, back);
    }
  }

  lemma {:induction false} BlocksStart(ds: seq<Designation>, rows: seq<seq<nat>>, n: nat)
    requires |rows| == |ds| && AllAddressable(ds) && n <= |ds|
    requires forall k | 0 <= k < |ds| :: |rows[k]| == ds[k].Count()
    ensures StartOf(RowBlocks(ds, rows), n) == OffsetOf(ds, n)
  {
    if n > 0 {
      BlocksStart(ds, rows, n - 1);
      BlockSize(ds, rows, n - 1);
    }
  }

  lemma BlockSize(ds: seq<Designation>, rows: seq<seq<nat>>, i: nat)
    requires |rows| == |ds| && AllAddressable(ds) && i < |ds| && |rows[i]| == ds[i].Count()
    ensures |RowBlocks(ds, rows)[i]| == ds[i].Size()
  {
    assert StrideIsNat(ds[i]);
  }

  /** Designation i occupies its words in the packed data. */
  lemma PackPlaces(ds: seq<Designation>, rows: seq<seq<nat>>, i: nat)
    requires |rows| == |ds| && AllAddressable(ds) && i < |ds|
    requires forall k | 0 <= k < |ds| :: |rows[k]| == ds[k].Count()
    ensures StrideIsNat(ds[i])
    ensures Occupies(Pack(ds, rows), OffsetOf(ds, i), OffsetOf(ds, i) + ds[i].Size(),
                     PackRows(rows[i], ds[i].variable.Stride()))
  {
    BlocksStart(ds, rows, i);
    BlockSize(ds, rows, i);
    BlockPlaces(RowBlocks(ds, rows), |ds|, i);
  }

  /** Reading row o of a slice that starts the data. */
  lemma RawValueOfPacked(data: seq<Word>, rows: seq<nat>, stride: nat, o: nat)
    requires o < |rows| && rows[o] < WordSpan(stride)
    requires |data| >= stride * |rows| && data[..stride * |rows|] == PackRows(rows, stride)
    ensures RawValue(data, stride, |rows|, o) == Ok(rows[o])
  {
    PackRowsAt(rows, stride, |rows|, o);
    WordsRoundTrip(rows[o], stride);
    RowStart(stride, o);
    if stride > 0 {
      var l, h := stride * o, stride * (o + 1);
      assert data[l..h] == data[..stride * |rows|][l..h];
    }
  }

  lemma {:induction false} RowValuesOfPacked(data: seq<Word>, rows: seq<nat>, stride: nat, upto: nat)
    requires upto <= |rows| && forall o | 0 <= o < |rows| :: rows[o] < WordSpan(stride)
    requires |data| >= stride * |rows| && data[..stride * |rows|] == PackRows(rows, stride)
    ensures RowValues(data, stride, |rows|, upto) == Ok(rows[..upto])
  {
    if upto > 0 {
      RowValuesOfPacked(data, rows, stride, upto - 1);
      RawValueOfPacked(data, rows, stride, upto - 1);
      assert rows[..upto] == rows[..upto - 1] + [rows[upto - 1]];
    }
  }

  /** What is left from where some words start begins with them. */
  lemma SubarrayStarts(data: seq<Word>, l: int, h: int, words: seq<Word>)
    requires Occupies(data, l, h, words)
    ensures |Subarray(data, l)| >= |words| && Subarray(data, l)[..|words|] == words
  {
    assert Subarray(data, l) == data[l..];
    assert data[l..][..h - l] == data[l..h];
  }

  /** A designation's rows are extracted from data that begins with them. */
  lemma ExtractedRows(d: Designation, rows: seq<nat>, data: seq<Word>)
    requires d.Addressable() && InRange(d, rows) && StrideIsNat(d)
    requires var words := PackRows(rows, d.variable.Stride()); |data| >= |words| && data[..|words|] == words
    ensures Extracted(d, data) == Ok(ValueOf(d, rows))
  {
    WidthFitsStride(d.variable);
    if d.MemoryRange? {
      RowValuesOfPacked(data, rows, d.variable.Stride(), |rows|);
      assert rows[..|rows|] == rows;
    } else {
      RawValueOfPacked(data, rows, d.variable.Stride(), 0);
    }
  }

  /** Values packed for a list of designations come back through each handle's offset, row by row. */
  lemma LayoutRoundTrip(ds: seq<Designation>, rows: seq<seq<nat>>, i: nat)
    requires |rows| == |ds| && AllAddressable(ds) && i < |ds|
    requires forall k | 0 <= k < |ds| :: InRange(ds[k], rows[k])
    ensures |rows[i]| == ds[i].Count()
    ensures Extracted(ds[i], Subarray(Pack(ds, rows), OffsetOf(ds, i))) == Ok(ValueOf(ds[i], rows[i]))
  {
    PlacedInRange(ds, rows, i);
    PlacedIsExtracted(ds[i], rows[i], Pack(ds, rows), OffsetOf(ds, i));
  }

  /** The data holds the designation's rows from the offset on. */
  ghost predicate Placed(d: Designation, rows: seq<nat>, data: seq<Word>, l: int) {
    d.Addressable() && InRange(d, rows) && StrideIsNat(d)
    && Occupies(data, l, l + d.Size(), PackRows(rows, d.variable.Stride()))
  }

  lemma PlacedInRange(ds: seq<Designation>, rows: seq<seq<nat>>, i: nat)
    requires |rows| == |ds| && AllAddressable(ds) && i < |ds|
    requires forall k | 0 <= k < |ds| :: InRange(ds[k], rows[k])
    ensures Placed(ds[i], rows[i], Pack(ds, rows), OffsetOf(ds, i))
  {
    InRangeCounts(ds, rows);
    PackPlaces(ds, rows, i);
  }

  lemma InRangeCounts(ds: seq<Designation>, rows: seq<seq<nat>>)
    requires |rows| == |ds| && forall k | 0 <= k < |ds| :: InRange(ds[k], rows[k])
    ensures forall k | 0 <= k < |ds| :: |rows[k]| == ds[k].Count()
  {
  }

  lemma PlacedIsExtracted(d: Designation, rows: seq<nat>, data: seq<Word>, l: int)
    requires Placed(d, rows, data, l)
    ensures |rows| == d.Count() && Extracted(d, Subarray(data, l)) == Ok(ValueOf(d, rows))
  {
    SubarrayStarts(data, l, l + d.Size(), PackRows(rows, d.variable.Stride()));
    ExtractedRows(d, rows, Subarray(data, l));
  }
}
