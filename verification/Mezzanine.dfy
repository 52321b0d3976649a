/**
 The generated conversions between a message and its mezzanine form, in which the tagged fields of
 a struct are in a tag buffer (nisshi-sans-io/build.rs, `message_struct` and
 `message_struct_into_version`; nisshi-sans-io/src/primitive/tagged.rs). A schema is a tree of fields,
 and a value has one entry for each field of its schema.
 */
module Mezzanine {
  import opened Prelude
  import opened Schema

  datatype Value = Null | Atom(atom: Bytes) | List(items: seq<Value>) | Record(fields: seq<Value>)

  datatype TagField = TagField(tag: nat, data: Bytes)

  datatype Mezz = MNull | MAtom(atom: Bytes) | MList(items: seq<Mezz>) | MRecord(fields: seq<Mezz>, tagBuffer: seq<TagField>)

  /** How one tagged field is encoded to bytes and back. Both can fail. */
  datatype TagCodec = TagCodec(encode: (Kind, Mezz) -> Option<Bytes>, decode: (Kind, Bytes) -> Option<Mezz>) {
    /** Decoding undoes encoding. */
    ghost predicate Lawful() {
      forall k, m :: encode(k, m).Some? ==> decode(k, encode(k, m).value) == Some(m)
    }
  }

  // ------------------------------------------------------------------ to the mezzanine form

  function ToKind(c: TagCodec, kind: Kind, v: Value): Mezz
    decreases kind, 0
  {
    match kind
    case Primitive(_) => if v.Atom? then MAtom(v.atom) else MNull
    case PrimitiveSequence(_) => if v.Atom? then MAtom(v.atom) else MNull
    case StructSequence(children) => if v.List? then MList(ToItems(c, children, v.items)) else MNull
    case Struct(children) => if v.Record? then ToStruct(c, children, v.fields) else MNull
  }

  function ToItems(c: TagCodec, children: seq<Field>, items: seq<Value>): seq<Mezz>
    decreases children, 2, |items|
  {
    if items == [] then []
    else
      var n := |items| - 1;
      var last := if items[n].Record? then ToStruct(c, children, items[n].fields) else MNull;
      ToItems(c, children, items[..n]) + [last]
  }

  function ToStruct(c: TagCodec, fields: seq<Field>, vs: seq<Value>): Mezz
    decreases fields, 1
  {
    MRecord(Untagged(c, fields, vs), TagBuffer(c, fields, vs))
  }

  /** The fields without a tag, in order. */
  function Untagged(c: TagCodec, fields: seq<Field>, vs: seq<Value>): seq<Mezz>
    decreases fields, 0
  {
    if fields == [] || |vs| != |fields| then []
    else
      var n := |fields| - 1;
      var before := Untagged(c, fields[..n], vs[..n]);
      if fields[n].tag.None? then before + [ToKind(c, fields[n].kind, vs[n])] else before
  }

  /** The tag buffer: the tagged fields that are set and that encode, in order. */
  function TagBuffer(c: TagCodec, fields: seq<Field>, vs: seq<Value>): seq<TagField>
    decreases fields, 0
  {
    if fields == [] || |vs| != |fields| then []
    else
      var n := |fields| - 1;
      var before := TagBuffer(c, fields[..n], vs[..n]);
      if fields[n].tag.Some? && !vs[n].Null? then
        var encoded := c.encode(fields[n].kind, ToKind(c, fields[n].kind, vs[n]));
        if encoded.Some? then before + [TagField(fields[n].tag.value, encoded.value)] else before
      else before
  }

  // ------------------------------------------------------------------ and back

  /** `TagBuffer::decode`: the data of the first field with a tag. */
  function Find(tags: seq<TagField>, tag: nat): Option<Bytes> {
    if tags == [] then None
    else if tags[0].tag == tag then Some(tags[0].data)
    else Find(tags[1..], tag)
  }

  function FromKind(c: TagCodec, kind: Kind, m: Mezz): Value
    decreases kind, 0
  {
    match kind
    case Primitive(_) => if m.MAtom? then Atom(m.atom) else Null
    case PrimitiveSequence(_) => if m.MAtom? then Atom(m.atom) else Null
    case StructSequence(children) => if m.MList? then List(FromItems(c, children, m.items)) else Null
    case Struct(children) => if m.MRecord? then Record(FromFields(c, children, m.fields, m.tagBuffer)) else Null
  }

  function FromItems(c: TagCodec, children: seq<Field>, items: seq<Mezz>): seq<Value>
    decreases children, 2, |items|
  {
    if items == [] then []
    else
      var n := |items| - 1;
      var last := if items[n].MRecord? then Record(FromFields(c, children, items[n].fields, items[n].tagBuffer)) else Null;
      FromItems(c, children, items[..n]) + [last]
  }

  /** A tagged field is what its tag decodes to, and null if that fails. The others take what is untagged, in order. */
  function FromFields(c: TagCodec, fields: seq<Field>, untagged: seq<Mezz>, tags: seq<TagField>): seq<Value>
    decreases fields, 0
  {
    if fields == [] then []
    else
      var n := |fields| - 1;
      if fields[n].tag.Some? then
        FromFields(c, fields[..n], untagged, tags) + [FromTag(c, fields[n].kind, Find(tags, fields[n].tag.value))]
      else if untagged == [] then FromFields(c, fields[..n], [], tags) + [Null]
      else
        var u := |untagged| - 1;
        FromFields(c, fields[..n], untagged[..u], tags) + [FromKind(c, fields[n].kind, untagged[u])]
  }

  function FromTag(c: TagCodec, kind: Kind, data: Option<Bytes>): Value
    decreases kind, 1
  {
    if data.None? then Null
    else
      match c.decode(kind, data.value)
      case None => Null
      case Some(m) => FromKind(c, kind, m)
  }

  // ------------------------------------------------------------------ well-formed schemas and values

  /** The tags of a struct are distinct, at every level. */
  ghost predicate WellFormed(fields: seq<Field>)
    decreases fields
  {
    && (forall i, j :: 0 <= i < j < |fields| && fields[i].tag.Some? && fields[j].tag.Some? ==> fields[i].tag != fields[j].tag)
    && (forall i :: 0 <= i < |fields| ==> WellFormedKind(fields[i].kind))
  }

  ghost predicate WellFormedKind(kind: Kind)
    decreases kind
  {
    (kind.StructSequence? || kind.Struct?) ==> WellFormed(kind.children)
  }

  /** A value of a kind, which is not null. */
  ghost predicate Typed(kind: Kind, v: Value)
    decreases kind, 0
  {
    match kind
    case Primitive(_) => v.Atom?
    case PrimitiveSequence(_) => v.Atom?
    case StructSequence(children) => v.List? && TypedItems(children, v.items)
    case Struct(children) => v.Record? && TypedFields(children, v.fields)
  }

  ghost predicate TypedItems(children: seq<Field>, items: seq<Value>)
    decreases children, 2
  {
    forall i :: 0 <= i < |items| ==> items[i].Record? && TypedFields(children, items[i].fields)
  }

  /** A field can be null if its generated type is an `Option`, which a struct field with no tag is only if it is nullable. */
  ghost predicate TypedFields(fields: seq<Field>, vs: seq<Value>)
    decreases fields, 1
  {
    && |vs| == |fields|
    && forall i :: 0 <= i < |fields| ==>
         || Typed(fields[i].kind, vs[i])
         || (vs[i].Null? && (fields[i].tag.Some? || !fields[i].kind.Struct? || fields[i].nullable.Some?))
  }

  /** Every tagged field that is set encodes, at every level. */
  ghost predicate Survives(c: TagCodec, kind: Kind, v: Value)
    decreases kind, 0
  {
    match kind
    case Primitive(_) => true
    case PrimitiveSequence(_) => true
    case StructSequence(children) =>
      v.List? ==>
        forall i :: 0 <= i < |v.items| && v.items[i].Record? ==> SurvivesFields(c, children, v.items[i].fields)
    case Struct(children) => v.Record? ==> SurvivesFields(c, children, v.fields)
  }

  ghost predicate SurvivesFields(c: TagCodec, fields: seq<Field>, vs: seq<Value>)
    decreases fields, 1
  {
    forall i :: 0 <= i < |fields| && i < |vs| && !vs[i].Null? ==>
      && Survives(c, fields[i].kind, vs[i])
      && (fields[i].tag.Some? ==> c.encode(fields[i].kind, ToKind(c, fields[i].kind, vs[i])).Some?)
  }

  // ------------------------------------------------------------------ the tag buffer

  lemma {:induction false} FindConcat(a: seq<TagField>, b: seq<TagField>, tag: nat)
    ensures Find(a + b, tag) == if Find(a, tag).Some? then Find(a, tag) else Find(b, tag)
  {
    if a == [] {
      assert a + b == b;
    } else {
      FindConcat(a[1..], b, tag);
      assert (a + b)[1..] == a[1..] + b;
    }
  }

  /** What the tag buffer has for a field: its encoding, if it is set. */
  function Entry(c: TagCodec, f: Field, v: Value): Option<Bytes> {
    if v.Null? then None else c.encode(f.kind, ToKind(c, f.kind, v))
  }

  /** A tag that no field has is not in the buffer. */
  lemma {:induction false} NotFound(c: TagCodec, fields: seq<Field>, vs: seq<Value>, tag: nat)
    requires |vs| == |fields| && forall i :: 0 <= i < |fields| ==> fields[i].tag != Some(tag)
    ensures Find(TagBuffer(c, fields, vs), tag) == None
  {
    if fields != [] {
      var n := |fields| - 1;
      NotFound(c, fields[..n], vs[..n], tag);
      if fields[n].tag.Some? && Entry(c, fields[n], vs[n]).Some? {
        FindConcat(TagBuffer(c, fields[..n], vs[..n]), [TagField(fields[n].tag.value, Entry(c, fields[n], vs[n]).value)], tag);
      }
    }
  }

  /** With distinct tags, the buffer has for each tagged field what that field encodes to. */
  lemma {:induction false} FindOwn(c: TagCodec, fields: seq<Field>, vs: seq<Value>, k: nat)
    requires |vs| == |fields| && k < |fields| && fields[k].tag.Some?
    requires forall i, j :: 0 <= i < j < |fields| && fields[i].tag.Some? && fields[j].tag.Some? ==> fields[i].tag != fields[j].tag
    ensures Find(TagBuffer(c, fields, vs), fields[k].tag.value) == Entry(c, fields[k], vs[k])
  {
    var n := |fields| - 1;
    var before, tag := TagBuffer(c, fields[..n], vs[..n]), fields[k].tag.value;
    if k < n {
      FindOwn(c, fields[..n], vs[..n], k);
    } else {
      NotFound(c, fields[..n], vs[..n], tag);
    }
    if fields[n].tag.Some? && Entry(c, fields[n], vs[n]).Some? {
      FindConcat(before, [TagField(fields[n].tag.value, Entry(c, fields[n], vs[n]).value)], tag);
    }
  }

  // ------------------------------------------------------------------ where everything goes

  predicate Rising(at: seq<nat>) {
    forall i, j :: 0 <= i < j < |at| ==> at[i] < at[j]
  }

  /** The untagged part of a struct has the fields with no tag, all of them, in the order of the descriptor. */
  lemma {:induction false} UntaggedAt(c: TagCodec, fields: seq<Field>, vs: seq<Value>) returns (at: seq<nat>)
    requires |vs| == |fields|
    ensures Rising(at) && |at| == |Untagged(c, fields, vs)|
    ensures forall i :: 0 <= i < |at| ==>
              && at[i] < |fields| && fields[at[i]].tag.None?
              && Untagged(c, fields, vs)[i] == ToKind(c, fields[at[i]].kind, vs[at[i]])
    ensures forall k: nat :: k < |fields| && fields[k].tag.None? ==> k in at
  {
    if fields == [] {
      at := [];
    } else {
      var n := |fields| - 1;
      at := UntaggedAt(c, fields[..n], vs[..n]);
      forall k: nat | k < n && fields[k].tag.None? ensures k in at {
        assert fields[..n][k] == fields[k];
      }
      if fields[n].tag.None? {
        at := at + [n];
        assert at[|at| - 1] == n;
      }
    }
  }

  predicate Buffered(c: TagCodec, f: Field, v: Value) {
    f.tag.Some? && !v.Null? && c.encode(f.kind, ToKind(c, f.kind, v)).Some?
  }

  function TagOf(c: TagCodec, f: Field, v: Value): TagField
    requires Buffered(c, f, v)
  {
    TagField(f.tag.value, c.encode(f.kind, ToKind(c, f.kind, v)).value)
  }

  /** The tag buffer has the tagged fields that are set and encode, all of them, in the order of the descriptor. */
  lemma {:induction false} TagBufferAt(c: TagCodec, fields: seq<Field>, vs: seq<Value>) returns (at: seq<nat>)
    requires |vs| == |fields|
    ensures Rising(at) && |at| == |TagBuffer(c, fields, vs)|
    ensures forall i :: 0 <= i < |at| ==>
              && at[i] < |fields| && Buffered(c, fields[at[i]], vs[at[i]])
              && TagBuffer(c, fields, vs)[i] == TagOf(c, fields[at[i]], vs[at[i]])
    ensures forall k: nat :: k < |fields| && Buffered(c, fields[k], vs[k]) ==> k in at
  {
    if fields == [] {
      at := [];
    } else {
      var n := |fields| - 1;
      at := TagBufferAt(c, fields[..n], vs[..n]);
      forall k: nat | k < n && Buffered(c, fields[k], vs[k]) ensures k in at {
        assert fields[..n][k] == fields[k] && vs[..n][k] == vs[k];
      }
      if Buffered(c, fields[n], vs[n]) {
        at := at + [n];
        assert at[|at| - 1] == n;
      }
    }
  }

  /** The structs of a sequence are converted one by one, in order. */
  lemma {:induction false} ToItemsAt(c: TagCodec, children: seq<Field>, items: seq<Value>)
    ensures |ToItems(c, children, items)| == |items|
    ensures forall i :: 0 <= i < |items| && items[i].Record? ==>
              ToItems(c, children, items)[i] == ToStruct(c, children, items[i].fields)
  {
    if items != [] {
      ToItemsAt(c, children, items[..|items| - 1]);
    }
  }

  /** A tag is looked up by its first occurrence. */
  lemma {:induction false} FindFirst(tags: seq<TagField>, tag: nat)
    ensures Find(tags, tag).None? <==> forall i :: 0 <= i < |tags| ==> tags[i].tag != tag
    ensures Find(tags, tag).Some? ==>
              exists i :: && 0 <= i < |tags| && tags[i] == TagField(tag, Find(tags, tag).value)
                          && forall j :: 0 <= j < i ==> tags[j].tag != tag
  {
    if tags != [] && tags[0].tag != tag {
      FindFirst(tags[1..], tag);
      assert forall i :: 1 <= i < |tags| ==> tags[i] == tags[1..][i - 1];
      if Find(tags, tag).Some? {
        var i :| && 0 <= i < |tags| - 1 && tags[1..][i] == TagField(tag, Find(tags, tag).value)
                 && forall j :: 0 <= j < i ==> tags[1..][j].tag != tag;
        assert tags[i + 1] == TagField(tag, Find(tags, tag).value);
      }
    }
  }

  /**
   On the way back, from any mezzanine struct: a tagged field is what the data under its tag decodes to, and null if
   there is none or it does not decode, and tags that no field has are ignored.
   */
  lemma {:induction false} FromFieldsAt(c: TagCodec, fields: seq<Field>, untagged: seq<Mezz>, tags: seq<TagField>,
                                        k: nat)
    requires k < |fields|
    ensures |FromFields(c, fields, untagged, tags)| == |fields|
    ensures
      var v, data := FromFields(c, fields, untagged, tags)[k], if fields[k].tag.Some? then Find(tags, fields[k].tag.value) else None;
      fields[k].tag.Some? ==>
        if data.None? || c.decode(fields[k].kind, data.value).None? then v == Null
        else v == FromKind(c, fields[k].kind, c.decode(fields[k].kind, data.value).value)
  {
    var n := |fields| - 1;
    FromFieldsLength(c, fields, untagged, tags);
    if k < n {
      var before := if fields[n].tag.Some? || untagged == [] then untagged else untagged[..|untagged| - 1];
      FromFieldsAt(c, fields[..n], before, tags, k);
    }
  }

  lemma {:induction false} FromFieldsLength(c: TagCodec, fields: seq<Field>, untagged: seq<Mezz>, tags: seq<TagField>)
    ensures |FromFields(c, fields, untagged, tags)| == |fields|
  {
    if fields != [] {
      var n := |fields| - 1;
      FromFieldsLength(c, fields[..n], if fields[n].tag.Some? || untagged == [] then untagged else untagged[..|untagged| - 1], tags);
    }
  }

  // ------------------------------------------------------------------ the round trip

  /** What field `f` comes back as, given the tag buffer of its struct. */
  function FieldBack(c: TagCodec, f: Field, v: Value, tags: seq<TagField>): Value {
    if f.tag.Some? then FromTag(c, f.kind, Find(tags, f.tag.value)) else FromKind(c, f.kind, ToKind(c, f.kind, v))
  }

  ghost predicate FieldSurvives(c: TagCodec, f: Field, v: Value) {
    !v.Null? ==> Survives(c, f.kind, v) && (f.tag.Some? ==> c.encode(f.kind, ToKind(c, f.kind, v)).Some?)
  }

  /** The fields of a struct come back one by one. */
  lemma {:induction false} FieldsBack(c: TagCodec, fields: seq<Field>, vs: seq<Value>, tags: seq<TagField>, n: nat)
    requires |vs| == |fields| && n <= |fields|
    ensures
      var back := FromFields(c, fields[..n], Untagged(c, fields[..n], vs[..n]), tags);
      |back| == n && forall k :: 0 <= k < n ==> back[k] == FieldBack(c, fields[k], vs[k], tags)
  {
    if n > 0 {
      var m := n - 1;
      FieldsBack(c, fields, vs, tags, m);
      assert fields[..n][..m] == fields[..m] && vs[..n][..m] == vs[..m];
      var before := Untagged(c, fields[..m], vs[..m]);
      if fields[m].tag.None? {
        var last := ToKind(c, fields[m].kind, vs[m]);
        assert (before + [last])[..|before|] == before;
      }
    }
  }

  lemma {:induction false} KindRoundTrip(c: TagCodec, kind: Kind, v: Value)
    requires c.Lawful() && WellFormedKind(kind) && Typed(kind, v)
    ensures FromKind(c, kind, ToKind(c, kind, v)) == v <==> Survives(c, kind, v)
    decreases kind, 0
  {
    match kind
    case Primitive(_) =>
    case PrimitiveSequence(_) =>
    case StructSequence(children) => ItemsRoundTrip(c, children, v.items);
    case Struct(children) => StructRoundTrip(c, children, v.fields);
  }

  lemma ItemsRoundTrip(c: TagCodec, children: seq<Field>, items: seq<Value>)
    requires c.Lawful() && WellFormed(children) && TypedItems(children, items)
    ensures FromItems(c, children, ToItems(c, children, items)) == items <==>
            forall i :: 0 <= i < |items| ==> SurvivesFields(c, children, items[i].fields)
    decreases children, 2
  {
    forall k | 0 <= k < |items|
      ensures StructBack(c, children, items[k].fields) == items[k].fields <==> SurvivesFields(c, children, items[k].fields)
    {
      StructRoundTrip(c, children, items[k].fields);
    }
    ItemsBack(c, children, items);
  }

  function StructBack(c: TagCodec, fields: seq<Field>, vs: seq<Value>): seq<Value> {
    var m := ToStruct(c, fields, vs);
    FromFields(c, fields, m.fields, m.tagBuffer)
  }

  /** The items of a sequence come back one by one. */
  lemma {:induction false} ItemsBack(c: TagCodec, children: seq<Field>, items: seq<Value>)
    requires forall i :: 0 <= i < |items| ==> items[i].Record?
    ensures |ToItems(c, children, items)| == |items|
    ensures
      var back := FromItems(c, children, ToItems(c, children, items));
      |back| == |items| && forall k :: 0 <= k < |items| ==> back[k] == Record(StructBack(c, children, items[k].fields))
  {
    if items != [] {
      var n := |items| - 1;
      ItemsBack(c, children, items[..n]);
      var before := ToItems(c, children, items[..n]);
      assert ToItems(c, children, items)[..n] == before;
    }
  }

  /** A struct comes back as it was if and only if each of its tagged fields that is set encodes, at every level. */
  lemma {:induction false} StructRoundTrip(c: TagCodec, fields: seq<Field>, vs: seq<Value>)
    requires c.Lawful() && WellFormed(fields) && TypedFields(fields, vs)
    ensures StructBack(c, fields, vs) == vs <==> SurvivesFields(c, fields, vs)
    decreases fields, 1
  {
    var tags := TagBuffer(c, fields, vs);
    forall k | 0 <= k < |fields| ensures FieldBack(c, fields[k], vs[k], tags) == vs[k] <==> FieldSurvives(c, fields[k], vs[k]) {
      if fields[k].tag.Some? {
        FindOwn(c, fields, vs, k);
      }
      if !vs[k].Null? {
        KindRoundTrip(c, fields[k].kind, vs[k]);
      }
    }
    FieldsBack(c, fields, vs, tags, |fields|);
    assert fields[..|fields|] == fields && vs[..|fields|] == vs;
  }
}
