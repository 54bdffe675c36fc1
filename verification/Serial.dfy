/**
  Packing values into bytes and unpacking them.  The variable-length integer
  encoding and the machine representation of fixed-size scalars are parameters,
  of which only this is assumed: an encoding is as long as it should be, and
  decoding undoes it whatever bytes follow.
 */
module Serial {
  import opened Options
  import opened Parse

  newtype Byte = x: int | 0 <= x < 256
  type Bytes = seq<Byte>

  datatype Decoded = Decoded(value: int, length: nat)
  datatype Triple = Triple(id: int, read: int, write: int)

  datatype Codec = Codec(
    vintMax: nat,
    vint: int -> Bytes, unvint: Bytes -> Option<Decoded>,
    sizeVint: int -> Bytes, unsizeVint: Bytes -> Option<Decoded>,
    word: int -> Bytes, unword: Bytes -> int,
    offset: int -> Bytes, unoffset: Bytes -> int,
    cell: Triple -> Bytes, uncell: Bytes -> Triple,
    header: int -> Bytes, unheader: Bytes -> int)

  const WORD: nat := 8
  const CELL: nat := 16
  const HEADER: nat := 8
  const INT_MIN: int := -0x8000_0000
  const SIZE_MAX: int := 0xffff_ffff_ffff_ffff

  ghost predicate VintOk(c: Codec) {
    && (forall n :: |c.vint(n)| >= 1 && 1 <= |c.sizeVint(n)| <= c.vintMax)
    && (forall n, rest :: 0 <= n <= INT_MAX ==> c.unvint(c.vint(n) + rest) == Some(Decoded(n, |c.vint(n)|)))
    && (forall n, rest :: 0 <= n <= SIZE_MAX ==> c.unsizeVint(c.sizeVint(n) + rest) == Some(Decoded(n, |c.sizeVint(n)|)))
    && (forall b :: c.unvint(b).Some? ==> 1 <= c.unvint(b).value.length <= |b|)
    && (forall b :: c.unsizeVint(b).Some? ==> 1 <= c.unsizeVint(b).value.length <= |b|)
  }

  // A reference cell: a 64-bit identifier and two int counts.
  predicate CellOk(t: Triple) {
    INT64_MIN <= t.id <= INT64_MAX && INT_MIN <= t.read <= INT_MAX && INT_MIN <= t.write <= INT_MAX
  }

  // Signed 64-bit scalars, size_t offsets, cells and struct headers.
  ghost predicate ScalarsOk(c: Codec) {
    && (forall n :: |c.word(n)| == WORD && |c.offset(n)| == WORD && |c.header(n)| == HEADER)
    && (forall t :: |c.cell(t)| == CELL)
    && (forall n :: INT64_MIN <= n <= INT64_MAX ==> c.unword(c.word(n)) == n)
    && (forall n :: 0 <= n <= SIZE_MAX ==> c.unoffset(c.offset(n)) == n)
    && (forall t :: CellOk(t) ==> c.uncell(c.cell(t)) == t)
    && (forall n :: 0 <= n <= INT_MAX ==> c.unheader(c.header(n)) == n)
  }

  ghost predicate Lawful(c: Codec) {
    VintOk(c) && ScalarsOk(c)
  }

  datatype Type = Integer | Float | String | Blob | Reference | Struct | Container | Multiset

  function Code(t: Type): nat {
    match t
    case Integer => 1 case Float => 2 case String => 3 case Blob => 4
    case Container => 5 case Multiset => 6 case Struct => 7 case Reference => 8
  }

  function FromCode(n: int): (t: Option<Type>)
    ensures t.Some? <==> 1 <= n <= 8
    ensures t.Some? ==> Code(t.value) == n
  {
    if n == 1 then Some(Integer) else if n == 2 then Some(Float) else if n == 3 then Some(String)
    else if n == 4 then Some(Blob) else if n == 5 then Some(Container) else if n == 6 then Some(Multiset)
    else if n == 7 then Some(Struct) else if n == 8 then Some(Reference) else None
  }

  datatype Member = Member(key: Bytes, val: Val)

  datatype Val =
    | VInteger(n: int)
    | VFloat(bits: int)
    | VString(text: Bytes)
    | VBlob(blob: Bytes)
    | VRef(cell: Triple)
    | VStruct(stype: nat, fields: seq<Option<Val>>)
    | VContainer(keyType: Type, valType: Type, members: seq<Member>)
    | VMultiset(elemType: Type, elems: seq<Val>)

  function TypeOf(v: Val): Type {
    match v
    case VInteger(_) => Integer case VFloat(_) => Float case VString(_) => String case VBlob(_) => Blob
    case VRef(_) => Reference case VStruct(_, _) => Struct case VContainer(_, _, _) => Container
    case VMultiset(_, _) => Multiset
  }

  // The declared struct types: the types of their fields.
  type Structs = seq<seq<Type>>

  predicate WellTyped(sts: Structs, v: Val)
    decreases v
  {
    match v
    case VInteger(n) => INT64_MIN <= n <= INT64_MAX
    case VFloat(bits) => INT64_MIN <= bits <= INT64_MAX
    case VString(text) => text != [] && text[|text| - 1] == 0
    case VBlob(_) => true
    case VRef(cell) => CellOk(cell)
    case VStruct(t, fs) =>
      && t <= INT_MAX && t < |sts| && |fs| == |sts[t]|
      && forall i :: 0 <= i < |fs| && fs[i].Some? ==> TypeOf(fs[i].value) == sts[t][i] && WellTyped(sts, fs[i].value)
    case VContainer(_, valType, ms) =>
      && |ms| <= INT_MAX
      && forall i :: 0 <= i < |ms| ==> TypeOf(ms[i].val) == valType && WellTyped(sts, ms[i].val)
    case VMultiset(elemType, es) =>
      && |es| <= INT_MAX
      && forall i :: 0 <= i < |es| ==> TypeOf(es[i]) == elemType && WellTyped(sts, es[i])
  }

  // ---- Packing ------------------------------------------------------------------

  predicate Padded(t: Option<Type>) {
    t == Some(Multiset) || t == Some(Container)
  }

  function Zeros(n: nat): (b: Bytes)
    ensures |b| == n
  {
    seq(n, i => 0)
  }

  // An entry: its length, padded for types written in place, and its bytes.
  function Entry(c: Codec, t: Option<Type>, data: Bytes): Bytes {
    var len := c.sizeVint(|data|);
    len + (if Padded(t) && |len| < c.vintMax then Zeros(c.vintMax - |len|) else []) + data
  }

  function Pack(c: Codec, v: Val): Bytes
    decreases v
  {
    match v
    case VInteger(n) => c.word(n)
    case VFloat(bits) => c.word(bits)
    case VString(text) => text
    case VBlob(blob) => blob
    case VRef(cell) => c.cell(cell)
    case VStruct(t, fs) =>
      var start := HEADER + 8 * |fs|;
      c.header(t) + Offsets(c, fs, start) + Body(c, fs)
    case VContainer(keyType, valType, ms) =>
      c.vint(Code(keyType)) + c.vint(Code(valType)) + c.vint(|ms|) + Members(c, ms)
    case VMultiset(elemType, es) =>
      c.vint(Code(elemType)) + c.vint(|es|) + Elems(c, es)
  }

  function Members(c: Codec, ms: seq<Member>): Bytes
    decreases ms
  {
    if ms == [] then [] else PackMember(c, ms[0]) + Members(c, ms[1..])
  }

  function PackMember(c: Codec, m: Member): Bytes
    decreases m
  {
    Entry(c, None, m.key) + Entry(c, Some(TypeOf(m.val)), Pack(c, m.val))
  }

  function Elems(c: Codec, es: seq<Val>): Bytes
    decreases es
  {
    if es == [] then [] else Entry(c, Some(TypeOf(es[0])), Pack(c, es[0])) + Elems(c, es[1..])
  }

  // One struct field: whether it is set, and its bytes if so.
  function Field(c: Codec, f: Option<Val>): Bytes
    decreases f
  {
    if f.None? then [0] else [1] + Pack(c, f.value)
  }

  function Body(c: Codec, fs: seq<Option<Val>>): Bytes
    decreases fs
  {
    if fs == [] then [] else Field(c, fs[0]) + Body(c, fs[1..])
  }

  // Where each field starts, counted from the start of the struct.
  function Offsets(c: Codec, fs: seq<Option<Val>>, at: nat): Bytes
    decreases fs
  {
    if fs == [] then [] else c.offset(at) + Offsets(c, fs[1..], at + |Field(c, fs[0])|)
  }

  // Every length written fits the type it is written in.
  predicate Fits(c: Codec, v: Val)
    decreases v
  {
    && |Pack(c, v)| <= SIZE_MAX
    && match v
       case VStruct(_, fs) => forall i :: 0 <= i < |fs| && fs[i].Some? ==> Fits(c, fs[i].value)
       case VContainer(_, _, ms) => forall i :: 0 <= i < |ms| ==> |ms[i].key| <= SIZE_MAX && Fits(c, ms[i].val)
       case VMultiset(_, es) => forall i :: 0 <= i < |es| ==> Fits(c, es[i])
       case _ => true
  }

  // ---- Unpacking ------------------------------------------------------------------

  datatype Slice = Slice(data: Bytes, pos: nat)

  // The entry at pos and the position after it.
  function UnpackEntry(c: Codec, t: Option<Type>, data: Bytes, pos: nat): (r: Option<Slice>)
    ensures r.Some? ==> |r.value.data| <= |data| && pos <= r.value.pos
    ensures r.Some? && pos > 0 ==> |r.value.data| < |data|
  {
    if pos >= |data| then None
    else
      var len := c.unsizeVint(data[pos..]);
      if len.None? || len.value.value < 0 then None
      else
        var start := pos + if Padded(t) then c.vintMax else len.value.length;
        if start > |data| || len.value.value > |data| - start then None
        else Some(Slice(data[start..start + len.value.value], start + len.value.value))
  }

  function UnpackInt(c: Codec, data: Bytes, pos: nat): Option<Decoded> {
    if pos > |data| then None else c.unvint(data[pos..])
  }

  // Unpacks a value of a given type; every cell gets the counts supplied.
  function Unpack(c: Codec, sts: Structs, t: Type, data: Bytes, read: int, write: int): Option<Val>
    decreases |data|, 2, 0
  {
    match t
    case Integer => if |data| != WORD then None else Some(VInteger(c.unword(data)))
    case Float => if |data| != WORD then None else Some(VFloat(c.unword(data)))
    case String => if data == [] || data[|data| - 1] != 0 then None else Some(VString(data))
    case Blob => Some(VBlob(data))
    case Reference => if |data| != CELL then None else Some(VRef(Triple(c.uncell(data).id, read, write)))
    case Struct => UnpackStruct(c, sts, data, read, write)
    case Container => UnpackContainer(c, sts, data, read, write)
    case Multiset => UnpackMultiset(c, sts, data, read, write)
  }

  function UnpackContainer(c: Codec, sts: Structs, data: Bytes, read: int, write: int): Option<Val>
    decreases |data|, 1, 0
  {
    var k := UnpackInt(c, data, 0);
    if k.None? || FromCode(k.value.value).None? then None
    else
      var v := UnpackInt(c, data, k.value.length);
      if v.None? || FromCode(v.value.value).None? then None
      else
        var n := UnpackInt(c, data, k.value.length + v.value.length);
        if n.None? || !(0 <= n.value.value <= INT_MAX) then None
        else
          var pos := k.value.length + v.value.length + n.value.length;
          var ms := UnpackMembers(c, sts, FromCode(v.value.value).value, data, pos, n.value.value, read, write);
          if ms.None? then None
          else Some(VContainer(FromCode(k.value.value).value, FromCode(v.value.value).value, ms.value))
  }

  function UnpackMembers(c: Codec, sts: Structs, t: Type, data: Bytes, pos: nat, n: nat, read: int, write: int): Option<seq<Member>>
    decreases |data|, 0, n
  {
    if n == 0 then Some([])
    else
      var key := UnpackEntry(c, None, data, pos);
      if key.None? then None
      else
        var e := UnpackEntry(c, Some(t), data, key.value.pos);
        if e.None? || |e.value.data| >= |data| then None
        else
          var v := Unpack(c, sts, t, e.value.data, read, write);
          if v.None? then None
          else
            var rest := UnpackMembers(c, sts, t, data, e.value.pos, n - 1, read, write);
            if rest.None? then None else Some([Member(key.value.data, v.value)] + rest.value)
  }

  function UnpackMultiset(c: Codec, sts: Structs, data: Bytes, read: int, write: int): Option<Val>
    decreases |data|, 1, 0
  {
    var t := UnpackInt(c, data, 0);
    if t.None? || FromCode(t.value.value).None? then None
    else
      var n := UnpackInt(c, data, t.value.length);
      if n.None? || !(0 <= n.value.value <= INT_MAX) then None
      else
        var es := UnpackElems(c, sts, FromCode(t.value.value).value, data, t.value.length + n.value.length, n.value.value, read, write);
        if es.None? then None else Some(VMultiset(FromCode(t.value.value).value, es.value))
  }

  function UnpackElems(c: Codec, sts: Structs, t: Type, data: Bytes, pos: nat, n: nat, read: int, write: int): Option<seq<Val>>
    decreases |data|, 0, n
  {
    if n == 0 then Some([])
    else
      var e := UnpackEntry(c, Some(t), data, pos);
      if e.None? || |e.value.data| >= |data| then None
      else
        var v := Unpack(c, sts, t, e.value.data, read, write);
        if v.None? then None
        else
          var rest := UnpackElems(c, sts, t, data, e.value.pos, n - 1, read, write);
          if rest.None? then None else Some([v.value] + rest.value)
  }

  function UnpackStruct(c: Codec, sts: Structs, data: Bytes, read: int, write: int): Option<Val>
    decreases |data|, 1, 0
  {
    if |data| < HEADER then None
    else
      var t := c.unheader(data[..HEADER]);
      if t < 0 || t >= |sts| || |data| < HEADER + 8 * |sts[t]| then None
      else
        var fs := UnpackFields(c, sts, sts[t], data, 0, read, write);
        if fs.None? then None else Some(VStruct(t, fs.value))
  }

  function OffsetAt(c: Codec, data: Bytes, i: nat): int
    requires |data| >= HEADER + 8 * (i + 1)
  {
    c.unoffset(data[HEADER + 8 * i..HEADER + 8 * (i + 1)])
  }

  // Fields from i on; a field ends where the next one starts.
  function UnpackFields(c: Codec, sts: Structs, ts: seq<Type>, data: Bytes, i: nat, read: int, write: int): Option<seq<Option<Val>>>
    requires i <= |ts| && |data| >= HEADER + 8 * |ts|
    decreases |data|, 0, |ts| - i
  {
    if i == |ts| then Some([])
    else
      var at := OffsetAt(c, data, i);
      var end := if i == |ts| - 1 then |data| else OffsetAt(c, data, i + 1);
      if at < 0 || at >= |data| then None
      else
        var rest := UnpackFields(c, sts, ts, data, i + 1, read, write);
        if rest.None? then None
        else if data[at] == 0 then Some([None] + rest.value)
        else if end < at + 1 || end > |data| then None
        else
          var v := Unpack(c, sts, ts[i], data[at + 1..end], read, write);
          if v.None? then None else Some([Some(v.value)] + rest.value)
  }

  // ---- Round trip -------------------------------------------------------------------

  // A value with the counts of its cells replaced.
  function Recount(v: Val, read: int, write: int): Val
    decreases v
  {
    match v
    case VRef(cell) => VRef(Triple(cell.id, read, write))
    case VStruct(t, fs) => VStruct(t, RecountFields(fs, read, write))
    case VContainer(k, t, ms) => VContainer(k, t, RecountMembers(ms, read, write))
    case VMultiset(t, es) => VMultiset(t, RecountElems(es, read, write))
    case _ => v
  }

  function RecountFields(fs: seq<Option<Val>>, read: int, write: int): (r: seq<Option<Val>>)
    ensures |r| == |fs|
    decreases fs
  {
    if fs == [] then []
    else [RecountField(fs[0], read, write)] + RecountFields(fs[1..], read, write)
  }

  function RecountField(f: Option<Val>, read: int, write: int): Option<Val>
    decreases f
  {
    if f.None? then None else Some(Recount(f.value, read, write))
  }

  function RecountMembers(ms: seq<Member>, read: int, write: int): seq<Member>
    decreases ms
  {
    if ms == [] then [] else [Member(ms[0].key, Recount(ms[0].val, read, write))] + RecountMembers(ms[1..], read, write)
  }

  function RecountElems(es: seq<Val>, read: int, write: int): seq<Val>
    decreases es
  {
    if es == [] then [] else [Recount(es[0], read, write)] + RecountElems(es[1..], read, write)
  }

  // An entry is read back wherever it stands.
  lemma EntryRoundTrip(c: Codec, t: Option<Type>, pre: Bytes, d: Bytes, post: Bytes)
    requires VintOk(c) && |d| <= SIZE_MAX
    ensures UnpackEntry(c, t, pre + Entry(c, t, d) + post, |pre|) == Some(Slice(d, |pre| + |Entry(c, t, d)|))
  {
    hide VintOk;
    var len := c.sizeVint(|d|);
    var pad := if Padded(t) && |len| < c.vintMax then Zeros(c.vintMax - |len|) else [];
    SizeDecodes(c, |d|, pad + d + post);
    EntryParts(pre, len, pad, d, post);
  }

  lemma SizeDecodes(c: Codec, n: int, rest: Bytes)
    requires VintOk(c) && 0 <= n <= SIZE_MAX
    ensures 1 <= |c.sizeVint(n)| <= c.vintMax
    ensures c.unsizeVint(c.sizeVint(n) + rest) == Some(Decoded(n, |c.sizeVint(n)|))
  {
    hide ScalarsOk;
  }

  lemma EntryParts(pre: Bytes, len: Bytes, pad: Bytes, d: Bytes, post: Bytes)
    ensures var data := pre + (len + pad + d) + post;
            var start := |pre| + |len| + |pad|;
            data[|pre|..] == len + (pad + d + post) && data[start..start + |d|] == d
  {
  }

  lemma EntryShorter(c: Codec, t: Option<Type>, d: Bytes)
    requires VintOk(c)
    ensures |d| < |Entry(c, t, d)|
  {
    assert |c.sizeVint(|d|)| >= 1;
  }

  lemma IntRoundTrip(c: Codec, pre: Bytes, n: int, post: Bytes)
    requires VintOk(c) && 0 <= n <= INT_MAX
    ensures UnpackInt(c, pre + c.vint(n) + post, |pre|) == Some(Decoded(n, |c.vint(n)|))
  {
    assert (pre + c.vint(n) + post)[|pre|..] == c.vint(n) + post;
  }

  lemma ScalarRoundTrip(c: Codec, sts: Structs, v: Val, read: int, write: int)
    requires ScalarsOk(c) && WellTyped(sts, v) && !v.VStruct? && !v.VContainer? && !v.VMultiset?
    ensures Unpack(c, sts, TypeOf(v), Pack(c, v), read, write) == Some(Recount(v, read, write))
  {
    hide UnpackStruct, UnpackContainer, UnpackMultiset;
  }

  // What being well typed and fitting mean for the parts of a value.
  lemma MemberParts(c: Codec, sts: Structs, k: Type, t: Type, ms: seq<Member>)
    requires WellTyped(sts, VContainer(k, t, ms)) && Fits(c, VContainer(k, t, ms))
    ensures |ms| <= INT_MAX
    ensures forall i :: 0 <= i < |ms| ==> MemberOk(c, sts, t, ms[i])
  {
    hide Pack;
  }

  predicate MemberOk(c: Codec, sts: Structs, t: Type, m: Member) {
    TypeOf(m.val) == t && WellTyped(sts, m.val) && |m.key| <= SIZE_MAX && Fits(c, m.val)
  }

  lemma ElemParts(c: Codec, sts: Structs, t: Type, es: seq<Val>)
    requires WellTyped(sts, VMultiset(t, es)) && Fits(c, VMultiset(t, es))
    ensures |es| <= INT_MAX
    ensures forall i :: 0 <= i < |es| ==> ElemOk(c, sts, t, es[i])
  {
    hide Pack;
  }

  predicate ElemOk(c: Codec, sts: Structs, t: Type, e: Val) {
    TypeOf(e) == t && WellTyped(sts, e) && Fits(c, e)
  }

  lemma FitsSize(c: Codec, v: Val)
    requires Fits(c, v)
    ensures |Pack(c, v)| <= SIZE_MAX
  {
  }

  lemma VintNonempty(c: Codec, n: int)
    requires VintOk(c)
    ensures c.vint(n) != []
  {
    assert |c.vint(n)| >= 1;
  }

  lemma Assoc(a: Bytes, b: Bytes, d: Bytes, e: Bytes)
    ensures a + b + d + e == a + (b + d + e) == a + b + (d + e)
    ensures [] + a + (b + d + e) == a + (b + d + e)
  {
  }

  /** Unpacking what was packed gives the value back, with the counts supplied in its cells. */
  lemma {:induction false} RoundTrip(c: Codec, sts: Structs, v: Val, read: int, write: int)
    requires Lawful(c) && WellTyped(sts, v) && Fits(c, v)
    ensures Unpack(c, sts, TypeOf(v), Pack(c, v), read, write) == Some(Recount(v, read, write))
    decreases v, 1
  {
    hide VintOk, ScalarsOk, WellTyped, Fits, UnpackStruct, UnpackContainer, UnpackMultiset, RecountFields, RecountMembers,
      RecountElems, Offsets, Body, Members, Elems;
    match v
    case VInteger(_) => ScalarRoundTrip(c, sts, v, read, write);
    case VFloat(_) => ScalarRoundTrip(c, sts, v, read, write);
    case VString(_) => ScalarRoundTrip(c, sts, v, read, write);
    case VBlob(_) => ScalarRoundTrip(c, sts, v, read, write);
    case VRef(_) => ScalarRoundTrip(c, sts, v, read, write);
    case VStruct(t, fs) => StructRoundTrip(c, sts, t, fs, read, write);
    case VContainer(k, t, ms) => ContainerRoundTrip(c, sts, k, t, ms, read, write);
    case VMultiset(t, es) => MultisetRoundTrip(c, sts, t, es, read, write);
  }

  lemma {:induction false} ContainerRoundTrip(c: Codec, sts: Structs, k: Type, t: Type, ms: seq<Member>, read: int, write: int)
    requires Lawful(c) && WellTyped(sts, VContainer(k, t, ms)) && Fits(c, VContainer(k, t, ms))
    ensures UnpackContainer(c, sts, Pack(c, VContainer(k, t, ms)), read, write) ==
            Some(VContainer(k, t, RecountMembers(ms, read, write)))
    decreases ms, 2
  {
    hide VintOk, ScalarsOk, WellTyped, Fits, UnpackMembers, Members, UnpackInt, RecountMembers, MemberOk;
    var a, b, n := c.vint(Code(k)), c.vint(Code(t)), c.vint(|ms|);
    var rest := Members(c, ms);
    assert Pack(c, VContainer(k, t, ms)) == a + b + n + rest;
    Assoc(a, b, n, rest);
    MemberParts(c, sts, k, t, ms);
    IntRoundTrip(c, [], Code(k), b + n + rest);
    IntRoundTrip(c, a, Code(t), n + rest);
    IntRoundTrip(c, a + b, |ms|, rest);
    VintNonempty(c, Code(k));
    MembersRoundTrip(c, sts, t, a + b + n, ms, read, write);
  }

  lemma {:induction false} MembersRoundTrip(c: Codec, sts: Structs, t: Type, pre: Bytes, ms: seq<Member>, read: int, write: int)
    requires Lawful(c) && pre != []
    requires forall i :: 0 <= i < |ms| ==> MemberOk(c, sts, t, ms[i])
    ensures UnpackMembers(c, sts, t, pre + Members(c, ms), |pre|, |ms|, read, write) == Some(RecountMembers(ms, read, write))
    decreases ms, 1
  {
    hide VintOk, ScalarsOk, WellTyped, Fits, Entry, UnpackEntry, Pack, Unpack, Recount;
    if ms != [] {
      assert MemberOk(c, sts, t, ms[0]);
      FitsSize(c, ms[0].val);
      var key, val := Entry(c, None, ms[0].key), Entry(c, Some(t), Pack(c, ms[0].val));
      var rest := Members(c, ms[1..]);
      assert Members(c, ms) == key + val + rest;
      Assoc(pre, key, val, rest);
      EntryShorter(c, Some(t), Pack(c, ms[0].val));
      EntryRoundTrip(c, None, pre, ms[0].key, val + rest);
      EntryRoundTrip(c, Some(t), pre + key, Pack(c, ms[0].val), rest);
      RoundTrip(c, sts, ms[0].val, read, write);
      MembersRoundTrip(c, sts, t, pre + key + val, ms[1..], read, write);
    }
  }

  lemma {:induction false} MultisetRoundTrip(c: Codec, sts: Structs, t: Type, es: seq<Val>, read: int, write: int)
    requires Lawful(c) && WellTyped(sts, VMultiset(t, es)) && Fits(c, VMultiset(t, es))
    ensures UnpackMultiset(c, sts, Pack(c, VMultiset(t, es)), read, write) ==
            Some(VMultiset(t, RecountElems(es, read, write)))
    decreases es, 2
  {
    hide VintOk, ScalarsOk, WellTyped, Fits, UnpackElems, Elems, UnpackInt, RecountElems, ElemOk;
    var a, n := c.vint(Code(t)), c.vint(|es|);
    var rest := Elems(c, es);
    assert Pack(c, VMultiset(t, es)) == a + n + rest;
    Assoc([], a, n, rest);
    assert [] + a == a;
    ElemParts(c, sts, t, es);
    IntRoundTrip(c, [], Code(t), n + rest);
    IntRoundTrip(c, a, |es|, rest);
    VintNonempty(c, Code(t));
    ElemsRoundTrip(c, sts, t, a + n, es, read, write);
  }

  lemma {:induction false} ElemsRoundTrip(c: Codec, sts: Structs, t: Type, pre: Bytes, es: seq<Val>, read: int, write: int)
    requires Lawful(c) && pre != []
    requires forall i :: 0 <= i < |es| ==> ElemOk(c, sts, t, es[i])
    ensures UnpackElems(c, sts, t, pre + Elems(c, es), |pre|, |es|, read, write) == Some(RecountElems(es, read, write))
    decreases es, 1
  {
    hide VintOk, ScalarsOk, WellTyped, Fits, Entry, UnpackEntry, Pack, Unpack, Recount;
    if es != [] {
      assert ElemOk(c, sts, t, es[0]);
      FitsSize(c, es[0]);
      var val := Entry(c, Some(t), Pack(c, es[0]));
      var rest := Elems(c, es[1..]);
      assert Elems(c, es) == val + rest;
      assert pre + (val + rest) == pre + val + rest;
      EntryShorter(c, Some(t), Pack(c, es[0]));
      EntryRoundTrip(c, Some(t), pre, Pack(c, es[0]), rest);
      RoundTrip(c, sts, es[0], read, write);
      ElemsRoundTrip(c, sts, t, pre + val, es[1..], read, write);
    }
  }

  lemma {:induction false} OffsetsLength(c: Codec, fs: seq<Option<Val>>, at: nat)
    requires ScalarsOk(c)
    ensures |Offsets(c, fs, at)| == 8 * |fs|
  {
    if fs != [] {
      OffsetsLength(c, fs[1..], at + |Field(c, fs[0])|);
    }
  }

  // The offset of field i: where the fields before it end.
  function StartOf(c: Codec, fs: seq<Option<Val>>, i: nat): nat
    requires i <= |fs|
  {
    |Body(c, fs[..i])|
  }

  lemma {:induction false} BodySplit(c: Codec, a: seq<Option<Val>>, b: seq<Option<Val>>)
    ensures Body(c, a + b) == Body(c, a) + Body(c, b)
  {
    if a == [] {
      assert a + b == b;
    } else {
      assert (a + b)[1..] == a[1..] + b;
      BodySplit(c, a[1..], b);
    }
  }

  lemma BodyOne(c: Codec, f: Option<Val>)
    ensures Body(c, [f]) == Field(c, f)
  {
    assert [f][1..] == [];
  }

  lemma {:induction false} OffsetsSplit(c: Codec, a: seq<Option<Val>>, b: seq<Option<Val>>, at: nat)
    ensures Offsets(c, a + b, at) == Offsets(c, a, at) + Offsets(c, b, at + |Body(c, a)|)
  {
    if a == [] {
      assert a + b == b;
    } else {
      assert (a + b)[1..] == a[1..] + b;
      OffsetsSplit(c, a[1..], b, at + |Field(c, a[0])|);
    }
  }

  // The table gives each field's start.
  lemma OffsetEntry(c: Codec, fs: seq<Option<Val>>, i: nat, at: nat)
    requires ScalarsOk(c) && i < |fs|
    ensures |Offsets(c, fs, at)| == 8 * |fs|
    ensures Offsets(c, fs, at)[8 * i..8 * (i + 1)] == c.offset(at + StartOf(c, fs, i))
  {
    assert fs == fs[..i] + ([fs[i]] + fs[i + 1..]);
    OffsetsSplit(c, fs[..i], [fs[i]] + fs[i + 1..], at);
    OffsetsLength(c, fs, at);
    OffsetsLength(c, fs[..i], at);
    var rest := Offsets(c, [fs[i]] + fs[i + 1..], at + StartOf(c, fs, i));
    assert rest[..WORD] == c.offset(at + StartOf(c, fs, i));
  }

  lemma Around<T>(s: seq<T>, i: nat)
    requires i < |s|
    ensures s == s[..i] + ([s[i]] + s[i + 1..]) && s[..i + 1] == s[..i] + [s[i]]
  {
  }

  lemma BodyThree(c: Codec, a: seq<Option<Val>>, f: Option<Val>, b: seq<Option<Val>>)
    ensures Body(c, a + ([f] + b)) == Body(c, a) + Field(c, f) + Body(c, b)
    ensures Body(c, a + [f]) == Body(c, a) + Field(c, f)
  {
    hide Field, Body;
    BodySplit(c, a, [f] + b);
    BodySplit(c, [f], b);
    BodySplit(c, a, [f]);
    BodyOne(c, f);
  }

  lemma BodyAround(c: Codec, fs: seq<Option<Val>>, i: nat)
    requires i < |fs|
    ensures Body(c, fs) == Body(c, fs[..i]) + Field(c, fs[i]) + Body(c, fs[i + 1..])
    ensures StartOf(c, fs, i + 1) == StartOf(c, fs, i) + |Field(c, fs[i])| <= |Body(c, fs)|
  {
    hide Field, Body;
    Around(fs, i);
    BodyThree(c, fs[..i], fs[i], fs[i + 1..]);
  }

  lemma StructLayout(c: Codec, t: nat, fs: seq<Option<Val>>, i: nat)
    requires ScalarsOk(c) && i < |fs|
    ensures var data := Pack(c, VStruct(t, fs));
            var start := HEADER + 8 * |fs|;
            && |data| == start + |Body(c, fs)|
            && start + StartOf(c, fs, i) + |Field(c, fs[i])| == start + StartOf(c, fs, i + 1) <= |data|
            && data[start + StartOf(c, fs, i)..start + StartOf(c, fs, i + 1)] == Field(c, fs[i])
  {
    hide Field, Body, Offsets, ScalarsOk, Pack;
    var start := HEADER + 8 * |fs|;
    var front := c.header(t) + Offsets(c, fs, start);
    StructParts(c, t, fs);
    BodyAround(c, fs, i);
    var before, f, post := Body(c, fs[..i]), Field(c, fs[i]), Body(c, fs[i + 1..]);
    assert |before| == StartOf(c, fs, i);
    Middle(front, before, f, post);
  }

  lemma StructParts(c: Codec, t: nat, fs: seq<Option<Val>>)
    requires ScalarsOk(c)
    ensures var start := HEADER + 8 * |fs|;
            var front := c.header(t) + Offsets(c, fs, start);
            |front| == start && Pack(c, VStruct(t, fs)) == front + Body(c, fs)
  {
    OffsetsLength(c, fs, HEADER + 8 * |fs|);
    HeaderLength(c, t);
    hide ScalarsOk, Offsets, Body;
  }

  lemma Middle(front: Bytes, before: Bytes, f: Bytes, post: Bytes)
    ensures var data := front + (before + f + post);
            data[|front| + |before|..|front| + |before| + |f|] == f
  {
  }

  lemma HeaderLength(c: Codec, t: int)
    requires ScalarsOk(c)
    ensures |c.header(t)| == HEADER
  {
    hide VintOk;
  }

  lemma StructOffset(c: Codec, t: nat, fs: seq<Option<Val>>, i: nat)
    requires ScalarsOk(c) && i < |fs| && |Pack(c, VStruct(t, fs))| <= SIZE_MAX
    ensures var data := Pack(c, VStruct(t, fs));
            && |data| >= HEADER + 8 * |fs|
            && OffsetAt(c, data, i) == HEADER + 8 * |fs| + StartOf(c, fs, i)
  {
    hide Offsets, Body, StartOf;
    var start := HEADER + 8 * |fs|;
    var data := Pack(c, VStruct(t, fs));
    StructLayout(c, t, fs, i);
    OffsetEntry(c, fs, i, start);
    HeaderLength(c, t);
    var table := Offsets(c, fs, start);
    assert data[HEADER + 8 * i..HEADER + 8 * (i + 1)] == table[8 * i..8 * (i + 1)];
  }

  lemma HeaderDecodes(c: Codec, t: int)
    requires ScalarsOk(c)
    ensures |c.header(t)| == HEADER && (0 <= t <= INT_MAX ==> c.unheader(c.header(t)) == t)
  {
    hide VintOk;
  }

  lemma {:induction false} StructRoundTrip(c: Codec, sts: Structs, t: nat, fs: seq<Option<Val>>, read: int, write: int)
    requires Lawful(c) && WellTyped(sts, VStruct(t, fs)) && Fits(c, VStruct(t, fs))
    ensures UnpackStruct(c, sts, Pack(c, VStruct(t, fs)), read, write) == Some(VStruct(t, RecountFields(fs, read, write)))
    decreases fs, 3
  {
    assert ScalarsOk(c);
    hide *;
    var data, after := Pack(c, VStruct(t, fs)), RecountFields(fs, read, write);
    FieldParts(c, sts, t, fs);
    AllFieldsRead(c, sts, t, fs, read, write);
    var tail := StructShape(c, sts, t, fs);
    FieldsFrom(c, sts, sts[t], data, 0, read, write, after);
    StructEnds(c, sts, t, c.header(t), tail, data, after, read, write);
  }

  lemma StructShape(c: Codec, sts: Structs, t: nat, fs: seq<Option<Val>>) returns (tail: Bytes)
    requires ScalarsOk(c) && WellTyped(sts, VStruct(t, fs))
    ensures |c.header(t)| == HEADER && c.unheader(c.header(t)) == t
    ensures Pack(c, VStruct(t, fs)) == c.header(t) + tail && |tail| >= 8 * |fs|
  {
    StructBounds(c, sts, t, fs);
    StructParts(c, t, fs);
    HeaderDecodes(c, t);
    hide *;
    var table, body := Offsets(c, fs, HEADER + 8 * |fs|), Body(c, fs);
    tail := table + body;
    Append3(c.header(t), table, body);
  }

  lemma Append3(a: Bytes, b: Bytes, d: Bytes)
    ensures a + b + d == a + (b + d) && |a + b| == |a| + |b| && |b + d| == |b| + |d|
  {
  }

  lemma {:induction false} AllFieldsRead(c: Codec, sts: Structs, t: nat, fs: seq<Option<Val>>, read: int, write: int)
    requires Lawful(c) && t < |sts| && |fs| == |sts[t]| && |Pack(c, VStruct(t, fs))| <= SIZE_MAX
    requires forall i :: 0 <= i < |fs| ==> FieldOk(c, sts, sts[t][i], fs[i])
    ensures forall i :: 0 <= i < |fs| ==>
              FieldReads(c, sts, sts[t], Pack(c, VStruct(t, fs)), i, read, write, RecountFields(fs, read, write)[i])
    decreases fs, 2
  {
    hide *;
    forall i | 0 <= i < |fs|
      ensures FieldReads(c, sts, sts[t], Pack(c, VStruct(t, fs)), i, read, write, RecountFields(fs, read, write)[i])
    {
      FieldReadsBack(c, sts, t, fs, i, read, write);
      RecountAt(fs, i, read, write);
    }
  }

  lemma StructEnds(c: Codec, sts: Structs, t: nat, head: Bytes, tail: Bytes, data: Bytes, after: seq<Option<Val>>, read: int, write: int)
    requires t < |sts| && |head| == HEADER && c.unheader(head) == t
    requires data == head + tail && |data| >= HEADER + 8 * |sts[t]|
    requires UnpackFields(c, sts, sts[t], data, 0, read, write) == Some(after[0..])
    ensures UnpackStruct(c, sts, data, read, write) == Some(VStruct(t, after))
  {
    hide UnpackFields;
    assert data[..HEADER] == head;
    assert after[0..] == after;
  }

  // Field i is found in the data and unpacks to f.
  ghost predicate FieldReads(c: Codec, sts: Structs, ts: seq<Type>, data: Bytes, i: nat, read: int, write: int, f: Option<Val>) {
    && i < |ts| && |data| >= HEADER + 8 * |ts|
    && var at, end := OffsetAt(c, data, i), if i == |ts| - 1 then |data| else OffsetAt(c, data, i + 1);
    && 0 <= at < end <= |data|
    && (data[at] == 0 <==> f.None?)
    && (f.Some? ==> Unpack(c, sts, ts[i], data[at + 1..end], read, write) == f)
  }

  lemma {:induction false} FieldsFrom(c: Codec, sts: Structs, ts: seq<Type>, data: Bytes, i: nat, read: int, write: int, after: seq<Option<Val>>)
    requires i <= |ts| == |after| && |data| >= HEADER + 8 * |ts|
    requires forall j :: i <= j < |ts| ==> FieldReads(c, sts, ts, data, j, read, write, after[j])
    ensures UnpackFields(c, sts, ts, data, i, read, write) == Some(after[i..])
    decreases |ts| - i
  {
    hide OffsetAt, Unpack;
    if i < |ts| {
      FieldsFrom(c, sts, ts, data, i + 1, read, write, after);
      assert FieldReads(c, sts, ts, data, i, read, write, after[i]);
      assert after[i..] == [after[i]] + after[i + 1..];
    }
  }

  lemma {:induction false} FieldReadsBack(c: Codec, sts: Structs, t: nat, fs: seq<Option<Val>>, i: nat, read: int, write: int)
    requires Lawful(c) && t < |sts| && i < |fs| == |sts[t]| && FieldOk(c, sts, sts[t][i], fs[i])
    requires |Pack(c, VStruct(t, fs))| <= SIZE_MAX
    ensures FieldReads(c, sts, sts[t], Pack(c, VStruct(t, fs)), i, read, write, RecountField(fs[i], read, write))
    decreases fs, 1
  {
    FieldSpan(c, t, fs, i);
    FieldValue(c, sts, sts[t][i], fs[i], read, write);
    hide VintOk, ScalarsOk, FieldOk, Pack, Unpack, RecountField, OffsetAt;
  }

  lemma {:induction false} RecountAt(fs: seq<Option<Val>>, i: nat, read: int, write: int)
    requires i < |fs|
    ensures RecountFields(fs, read, write)[i] == RecountField(fs[i], read, write)
  {
    hide RecountField;
    if i > 0 {
      RecountAt(fs[1..], i - 1, read, write);
    }
  }

  lemma StructBounds(c: Codec, sts: Structs, t: nat, fs: seq<Option<Val>>)
    requires WellTyped(sts, VStruct(t, fs))
    ensures t <= INT_MAX && t < |sts| && |fs| == |sts[t]|
  {
  }

  lemma {:induction false} FieldValue(c: Codec, sts: Structs, t: Type, f: Option<Val>, read: int, write: int)
    requires Lawful(c) && FieldOk(c, sts, t, f)
    ensures f.None? <==> RecountField(f, read, write).None?
    ensures f.Some? ==> Unpack(c, sts, t, Pack(c, f.value), read, write) == RecountField(f, read, write)
    decreases f, 2
  {
    hide VintOk, ScalarsOk, WellTyped, Fits, Pack, Unpack, Recount;
    if f.Some? {
      RoundTrip(c, sts, f.value, read, write);
    }
  }

  predicate FieldOk(c: Codec, sts: Structs, t: Type, f: Option<Val>) {
    f.Some? ==> TypeOf(f.value) == t && WellTyped(sts, f.value) && Fits(c, f.value)
  }

  lemma FieldParts(c: Codec, sts: Structs, t: nat, fs: seq<Option<Val>>)
    requires WellTyped(sts, VStruct(t, fs)) && Fits(c, VStruct(t, fs))
    ensures t < |sts| && |fs| == |sts[t]| && |Pack(c, VStruct(t, fs))| <= SIZE_MAX
    ensures forall i :: 0 <= i < |fs| ==> FieldOk(c, sts, sts[t][i], fs[i])
  {
    hide Pack;
  }

  // Where field i lies, by the table, and what is there.
  lemma FieldSpan(c: Codec, t: nat, fs: seq<Option<Val>>, i: nat)
    requires ScalarsOk(c) && i < |fs| && |Pack(c, VStruct(t, fs))| <= SIZE_MAX
    ensures var data := Pack(c, VStruct(t, fs));
            && |data| >= HEADER + 8 * |fs|
            && var at, end := OffsetAt(c, data, i), if i == |fs| - 1 then |data| else OffsetAt(c, data, i + 1);
            && 0 <= at < end <= |data|
            && (data[at] == 0 <==> fs[i].None?)
            && (fs[i].Some? ==> data[at + 1..end] == Pack(c, fs[i].value))
  {
    hide ScalarsOk, Pack, OffsetAt;
    var data := Pack(c, VStruct(t, fs));
    var start := HEADER + 8 * |fs|;
    StructLayout(c, t, fs, i);
    StructOffset(c, t, fs, i);
    var at, end := start + StartOf(c, fs, i), start + StartOf(c, fs, i + 1);
    if i + 1 < |fs| {
      StructOffset(c, t, fs, i + 1);
    } else {
      assert fs[..i + 1] == fs;
    }
    assert data[at] == data[at..end][0];
    if fs[i].Some? {
      assert data[at + 1..end] == data[at..end][1..] == Pack(c, fs[i].value);
    }
  }
}
