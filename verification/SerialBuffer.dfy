/**
  Packing and unpacking as the buffers are used: bytes appended at a position
  that advances, the length of a container or multiset written afterwards into
  a place kept for it, entries taken off at a read position.
 */
module SerialBuffer {
  import opened Options
  import opened Parse
  import opened Serial

  lemma {:induction false} MembersSnoc(c: Codec, ms: seq<Member>, m: Member)
    ensures Members(c, ms + [m]) == Members(c, ms) + PackMember(c, m)
  {
    hide PackMember;
    if ms == [] {
      assert ms + [m] == [m] && [m][1..] == [];
    } else {
      assert (ms + [m])[1..] == ms[1..] + [m];
      MembersSnoc(c, ms[1..], m);
    }
  }

  lemma {:induction false} ElemsSnoc(c: Codec, es: seq<Val>, e: Val)
    ensures Elems(c, es + [e]) == Elems(c, es) + Entry(c, Some(TypeOf(e)), Pack(c, e))
  {
    hide Entry, Pack;
    if es == [] {
      assert es + [e] == [e] && [e][1..] == [];
    } else {
      assert (es + [e])[1..] == es[1..] + [e];
      ElemsSnoc(c, es[1..], e);
    }
  }

  lemma FieldsSnoc(c: Codec, fs: seq<Option<Val>>, f: Option<Val>, at: nat)
    ensures Body(c, fs + [f]) == Body(c, fs) + Field(c, f)
    ensures Offsets(c, fs + [f], at) == Offsets(c, fs, at) + c.offset(at + |Body(c, fs)|)
  {
    hide Field;
    BodySplit(c, fs, [f]);
    BodyOne(c, f);
    OffsetsSplit(c, fs, [f], at);
    assert [f][1..] == [];
  }

  // A length written over the place kept for it, padding left in place.
  lemma Backpatch(c: Codec, t: Type, front: Bytes, data: Bytes)
    requires VintOk(c) && Padded(Some(t))
    ensures var len := c.sizeVint(|data|);
            var kept := front + Zeros(c.vintMax) + data;
            && |len| <= c.vintMax
            && kept[..|front|] + len + kept[|front| + |len|..] == front + Entry(c, Some(t), data)
  {
    var len := c.sizeVint(|data|);
    assert |len| <= c.vintMax;
    hide VintOk;
    assert Zeros(0) == [];
    Patched(front, c.vintMax, len, data);
  }

  lemma Patched(front: Bytes, n: nat, len: Bytes, data: Bytes)
    requires |len| <= n
    ensures var kept := front + Zeros(n) + data;
            kept[..|front|] + len + kept[|front| + |len|..] == front + (len + Zeros(n - |len|) + data)
  {
    var kept := front + Zeros(n) + data;
    assert kept[|front| + |len|..] == Zeros(n - |len|) + data;
  }

  lemma ContainerBytes(c: Codec, v: Val)
    requires v.VContainer?
    ensures Pack(c, v) == c.vint(Code(v.keyType)) + c.vint(Code(v.valType)) + c.vint(|v.members|) + Members(c, v.members)
  {
    hide Members;
  }

  lemma MultisetBytes(c: Codec, v: Val)
    requires v.VMultiset?
    ensures Pack(c, v) == c.vint(Code(v.elemType)) + c.vint(|v.elems|) + Elems(c, v.elems)
  {
    hide Elems;
  }

  lemma StructBytes(c: Codec, v: Val)
    requires v.VStruct?
    ensures Pack(c, v) == c.header(v.stype) + Offsets(c, v.fields, HEADER + 8 * |v.fields|) + Body(c, v.fields)
  {
    hide Offsets, Body;
  }

  lemma NoMembers(c: Codec)
    ensures Members(c, []) == [] && Elems(c, []) == [] && Body(c, []) == []
    ensures forall at: nat :: Offsets(c, [], at) == []
  {
  }

  lemma MemberBytes(c: Codec, m: Member)
    ensures PackMember(c, m) == Entry(c, None, m.key) + Entry(c, Some(TypeOf(m.val)), Pack(c, m.val))
  {
    hide Entry, Pack;
  }

  lemma FieldBytes(c: Codec, f: Option<Val>)
    ensures Field(c, f) == if f.None? then [0] else [1] + Pack(c, f.value)
  {
    hide Pack;
  }

  class Packer {
    const c: Codec
    var out: Bytes

    constructor (c: Codec)
      ensures this.c == c && out == []
    {
      this.c := c;
      out := [];
    }

    method AppendBuffer(t: Option<Type>, data: Bytes, prefix: bool)
      modifies this
      ensures out == old(out) + if prefix then Entry(c, t, data) else data
    {
      if prefix {
        var len := c.sizeVint(|data|);
        out := out + len;
        if Padded(t) && |len| < c.vintMax {
          out := out + Zeros(c.vintMax - |len|);
        }
      }
      out := out + data;
    }

    method PackBuffer(v: Val, prefix: bool)
      requires VintOk(c)
      modifies this
      ensures out == old(out) + if prefix then Entry(c, Some(TypeOf(v)), Pack(c, v)) else Pack(c, v)
      decreases v, 3
    {
      hide Pack, VintOk, Entry;
      if Padded(Some(TypeOf(v))) {
        var start := |out|;
        if prefix {
          out := out + Zeros(c.vintMax);
        }
        if v.VContainer? {
          PackContainer(v);
        } else {
          PackMultiset(v);
        }
        if prefix {
          ghost var data := Pack(c, v);
          assert out == old(out) + Zeros(c.vintMax) + data;
          var len := c.sizeVint(|out| - start - c.vintMax);
          Backpatch(c, TypeOf(v), old(out), data);
          out := out[..start] + len + out[start + |len|..];
        }
      } else {
        var data := PackAlone(v);
        AppendBuffer(Some(TypeOf(v)), data, prefix);
      }
    }

    method PackContainer(v: Val)
      requires VintOk(c) && v.VContainer?
      modifies this
      ensures out == old(out) + Pack(c, v)
      decreases v, 1
    {
      hide VintOk, Entry, Pack, Members, PackMember;
      ContainerBytes(c, v);
      out := out + c.vint(Code(v.keyType));
      out := out + c.vint(Code(v.valType));
      out := out + c.vint(|v.members|);
      ghost var head := out;
      NoMembers(c);
      for i := 0 to |v.members|
        invariant out == head + Members(c, v.members[..i])
      {
        var m := v.members[i];
        AppendBuffer(None, m.key, true);
        PackBuffer(m.val, true);
        MemberBytes(c, m);
        MembersSnoc(c, v.members[..i], m);
        assert v.members[..i + 1] == v.members[..i] + [m];
      }
      assert v.members[..|v.members|] == v.members;
    }

    method PackMultiset(v: Val)
      requires VintOk(c) && v.VMultiset?
      modifies this
      ensures out == old(out) + Pack(c, v)
      decreases v, 1
    {
      hide VintOk, Entry, Pack, Elems;
      MultisetBytes(c, v);
      NoMembers(c);
      out := out + c.vint(Code(v.elemType));
      out := out + c.vint(|v.elems|);
      ghost var head := out;
      for i := 0 to |v.elems|
        invariant out == head + Elems(c, v.elems[..i])
      {
        PackBuffer(v.elems[i], true);
        ElemsSnoc(c, v.elems[..i], v.elems[i]);
        assert v.elems[..i + 1] == v.elems[..i] + [v.elems[i]];
      }
      assert v.elems[..|v.elems|] == v.elems;
    }

    // The bytes of one value in a buffer of its own.
    method PackAlone(v: Val) returns (data: Bytes)
      requires VintOk(c)
      ensures data == Pack(c, v)
      decreases v, 2
    {
      match v
      case VInteger(n) => data := c.word(n);
      case VFloat(bits) => data := c.word(bits);
      case VString(text) => data := text;
      case VBlob(blob) => data := blob;
      case VRef(cell) => data := c.cell(cell);
      case VStruct(_, _) => data := PackStruct(v);
      case VContainer(_, _, _) =>
        var p := new Packer(c);
        p.PackContainer(v);
        data := p.out;
      case VMultiset(_, _) =>
        var p := new Packer(c);
        p.PackMultiset(v);
        data := p.out;
    }

    method PackStruct(v: Val) returns (data: Bytes)
      requires VintOk(c) && v.VStruct?
      ensures data == Pack(c, v)
      decreases v, 1
    {
      hide VintOk, Pack, Offsets, Body, Field;
      StructBytes(c, v);
      NoMembers(c);
      var start := HEADER + 8 * |v.fields|;
      var table, body: Bytes := [], [];
      for i := 0 to |v.fields|
        invariant table == Offsets(c, v.fields[..i], start) && body == Body(c, v.fields[..i])
      {
        table := table + c.offset(start + |body|);
        if v.fields[i].Some? {
          var field := PackAlone(v.fields[i].value);
          body := body + ([1] + field);
        } else {
          body := body + [0];
        }
        FieldBytes(c, v.fields[i]);
        FieldsSnoc(c, v.fields[..i], v.fields[i], start);
        assert v.fields[..i + 1] == v.fields[..i] + [v.fields[i]];
      }
      assert v.fields[..|v.fields|] == v.fields;
      data := c.header(v.stype) + table + body;
    }
  }

  // ---- Unpacking ------------------------------------------------------------------

  function Before<T>(done: seq<T>, rest: Option<seq<T>>): Option<seq<T>> {
    if rest.None? then None else Some(done + rest.value)
  }

  method UnpackValue(c: Codec, sts: Structs, t: Type, data: Bytes, read: int, write: int) returns (r: Option<Val>)
    ensures r == Unpack(c, sts, t, data, read, write)
    decreases |data|, 2
  {
    match t
    case Integer => r := if |data| != WORD then None else Some(VInteger(c.unword(data)));
    case Float => r := if |data| != WORD then None else Some(VFloat(c.unword(data)));
    case String => r := if data == [] || data[|data| - 1] != 0 then None else Some(VString(data));
    case Blob => r := Some(VBlob(data));
    case Reference => r := if |data| != CELL then None else Some(VRef(Triple(c.uncell(data).id, read, write)));
    case Struct => r := StructOf(c, sts, data, read, write);
    case Container => r := ContainerOf(c, sts, data, read, write);
    case Multiset => r := MultisetOf(c, sts, data, read, write);
  }

  method ContainerOf(c: Codec, sts: Structs, data: Bytes, read: int, write: int) returns (r: Option<Val>)
    ensures r == UnpackContainer(c, sts, data, read, write)
    decreases |data|, 1
  {
    hide UnpackEntry, Unpack;
    var k := UnpackInt(c, data, 0);
    if k.None? || FromCode(k.value.value).None? {
      return None;
    }
    var v := UnpackInt(c, data, k.value.length);
    if v.None? || FromCode(v.value.value).None? {
      return None;
    }
    var n := UnpackInt(c, data, k.value.length + v.value.length);
    if n.None? || !(0 <= n.value.value <= INT_MAX) {
      return None;
    }
    var t := FromCode(v.value.value).value;
    var pos: nat := k.value.length + v.value.length + n.value.length;
    var members := [];
    ghost var all := UnpackMembers(c, sts, t, data, pos, n.value.value, read, write);
    assert all.Some? ==> [] + all.value == all.value;
    for i := 0 to n.value.value
      invariant all == Before(members, UnpackMembers(c, sts, t, data, pos, n.value.value - i, read, write))
    {
      var key := UnpackEntry(c, None, data, pos);
      if key.None? {
        return None;
      }
      var e := UnpackEntry(c, Some(t), data, key.value.pos);
      if e.None? || |e.value.data| >= |data| {
        return None;
      }
      var val := UnpackValue(c, sts, t, e.value.data, read, write);
      if val.None? {
        return None;
      }
      BeforeStep(members, Member(key.value.data, val.value),
                 UnpackMembers(c, sts, t, data, e.value.pos, n.value.value - i - 1, read, write));
      members := members + [Member(key.value.data, val.value)];
      pos := e.value.pos;
    }
    assert members + [] == members;
    r := Some(VContainer(FromCode(k.value.value).value, t, members));
  }

  lemma BeforeStep<T>(done: seq<T>, x: T, rest: Option<seq<T>>)
    ensures Before(done, if rest.None? then None else Some([x] + rest.value)) == Before(done + [x], rest)
  {
    if rest.Some? {
      assert done + ([x] + rest.value) == done + [x] + rest.value;
    }
  }

  method MultisetOf(c: Codec, sts: Structs, data: Bytes, read: int, write: int) returns (r: Option<Val>)
    ensures r == UnpackMultiset(c, sts, data, read, write)
    decreases |data|, 1
  {
    hide UnpackEntry, Unpack;
    var k := UnpackInt(c, data, 0);
    if k.None? || FromCode(k.value.value).None? {
      return None;
    }
    var n := UnpackInt(c, data, k.value.length);
    if n.None? || !(0 <= n.value.value <= INT_MAX) {
      return None;
    }
    var t := FromCode(k.value.value).value;
    var pos: nat := k.value.length + n.value.length;
    var elems := [];
    ghost var all := UnpackElems(c, sts, t, data, pos, n.value.value, read, write);
    assert all.Some? ==> [] + all.value == all.value;
    for i := 0 to n.value.value
      invariant all == Before(elems, UnpackElems(c, sts, t, data, pos, n.value.value - i, read, write))
    {
      var e := UnpackEntry(c, Some(t), data, pos);
      if e.None? || |e.value.data| >= |data| {
        return None;
      }
      var val := UnpackValue(c, sts, t, e.value.data, read, write);
      if val.None? {
        return None;
      }
      BeforeStep(elems, val.value, UnpackElems(c, sts, t, data, e.value.pos, n.value.value - i - 1, read, write));
      elems := elems + [val.value];
      pos := e.value.pos;
    }
    assert elems + [] == elems;
    r := Some(VMultiset(t, elems));
  }

  method StructOf(c: Codec, sts: Structs, data: Bytes, read: int, write: int) returns (r: Option<Val>)
    ensures r == UnpackStruct(c, sts, data, read, write)
    decreases |data|, 1
  {
    hide Unpack, OffsetAt;
    if |data| < HEADER {
      return None;
    }
    var t := c.unheader(data[..HEADER]);
    if t < 0 || t >= |sts| || |data| < HEADER + 8 * |sts[t]| {
      return None;
    }
    var ts := sts[t];
    var fields: seq<Option<Val>> := [];
    ghost var all := UnpackFields(c, sts, ts, data, 0, read, write);
    assert all.Some? ==> [] + all.value == all.value;
    for i := 0 to |ts|
      invariant all == Before(fields, UnpackFields(c, sts, ts, data, i, read, write))
    {
      var at := OffsetAt(c, data, i);
      var end := if i == |ts| - 1 then |data| else OffsetAt(c, data, i + 1);
      if at < 0 || at >= |data| {
        return None;
      }
      var f: Option<Val> := None;
      if data[at] != 0 {
        if end < at + 1 || end > |data| {
          return None;
        }
        f := UnpackValue(c, sts, ts[i], data[at + 1..end], read, write);
        if f.None? {
          return None;
        }
      }
      BeforeStep(fields, f, UnpackFields(c, sts, ts, data, i + 1, read, write));
      fields := fields + [f];
    }
    assert fields + [] == fields;
    r := Some(VStruct(t, fields));
  }
}
