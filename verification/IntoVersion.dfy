/**
 Fitting a message to a version before it is encoded (nisshi-sans-io/build.rs,
 `message_struct_into_version`), and what its tag buffer then has (`message_struct`).
 */
module IntoVersion {
  import opened Prelude
  import opened Schema
  import opened Mezzanine

  predicate Cleared(f: Field, version: i16) {
    f.tag.Some? && !f.versions.Within(version)
  }

  /** The fields of a message at a version. */
  function AtVersion(fields: seq<Field>, vs: seq<Value>, version: i16): seq<Value>
    requires |vs| == |fields|
  {
    seq(|vs|, i requires 0 <= i < |vs| => if Cleared(fields[i], version) then Null else vs[i])
  }

  /** The generated `into_version`, which clears fields of the message in place. */
  method Fit(fields: seq<Field>, message: array<Value>, version: i16)
    requires message.Length == |fields|
    modifies message
    ensures message[..] == AtVersion(fields, old(message[..]), version)
  {
    var i := 0;
    while i < |fields|
      invariant 0 <= i <= |fields|
      invariant forall k :: 0 <= k < i ==> message[k] == if Cleared(fields[k], version) then Null else old(message[k])
      invariant forall k :: i <= k < |fields| ==> message[k] == old(message[k])
    {
      if fields[i].tag.Some? && !(fields[i].versions.start <= version <= fields[i].versions.end) {
        message[i] := Null;
      }
      i := i + 1;
    }
  }

  /**
   Fitting twice is fitting once, and fitting to two versions in either order keeps the tagged
   fields that both have. Untagged fields, and all that is nested in them, stay.
   */
  lemma FitTwice(fields: seq<Field>, vs: seq<Value>, v: i16, w: i16)
    requires |vs| == |fields|
    ensures AtVersion(fields, AtVersion(fields, vs, v), v) == AtVersion(fields, vs, v)
    ensures AtVersion(fields, AtVersion(fields, vs, v), w) == AtVersion(fields, AtVersion(fields, vs, w), v)
    ensures forall k :: 0 <= k < |fields| && fields[k].tag.None? ==> AtVersion(fields, vs, v)[k] == vs[k]
  {
    assert forall k :: 0 <= k < |vs| ==>
      AtVersion(fields, AtVersion(fields, vs, v), w)[k] == AtVersion(fields, AtVersion(fields, vs, w), v)[k];
  }

  /** The generated conversion pushes the tagged fields one by one. */
  method BuildTagBuffer(c: TagCodec, fields: seq<Field>, vs: seq<Value>) returns (tags: seq<TagField>)
    requires |vs| == |fields|
    ensures tags == TagBuffer(c, fields, vs)
  {
    tags := [];
    var i := 0;
    while i < |fields|
      invariant 0 <= i <= |fields|
      invariant tags == TagBuffer(c, fields[..i], vs[..i])
    {
      assert fields[..i + 1][..i] == fields[..i] && vs[..i + 1][..i] == vs[..i];
      if fields[i].tag.Some? && !vs[i].Null? {
        var encoded := c.encode(fields[i].kind, ToKind(c, fields[i].kind, vs[i]));
        if encoded.Some? {
          tags := tags + [TagField(fields[i].tag.value, encoded.value)];
        }
      }
      i := i + 1;
    }
    assert fields[..i] == fields && vs[..i] == vs;
  }

  // ------------------------------------------------------------------ what the buffer has

  function TagNumbers(tags: seq<TagField>): seq<nat> {
    seq(|tags|, i requires 0 <= i < |tags| => tags[i].tag)
  }

  predicate Present(f: Field, v: Value, version: i16) {
    f.tag.Some? && f.versions.Within(version) && !v.Null?
  }

  /** The tags that are set in a message and exist at a version, in the order of the descriptor. */
  function PresentTags(fields: seq<Field>, vs: seq<Value>, version: i16): seq<nat>
    requires |vs| == |fields|
  {
    if fields == [] then []
    else
      var n := |fields| - 1;
      var before := PresentTags(fields[..n], vs[..n], version);
      if Present(fields[n], vs[n], version) then before + [fields[n].tag.value] else before
  }

  ghost predicate AllEncode(c: TagCodec, fields: seq<Field>, vs: seq<Value>, version: i16)
    requires |vs| == |fields|
  {
    forall i :: 0 <= i < |fields| && Present(fields[i], vs[i], version) ==> Entry(c, fields[i], vs[i]).Some?
  }

  /** Those of `PresentTags` whose fields encode. */
  function EncodedTags(c: TagCodec, fields: seq<Field>, vs: seq<Value>, version: i16): seq<nat>
    requires |vs| == |fields|
  {
    if fields == [] then []
    else
      var n := |fields| - 1;
      var before := EncodedTags(c, fields[..n], vs[..n], version);
      if Present(fields[n], vs[n], version) && Entry(c, fields[n], vs[n]).Some? then before + [fields[n].tag.value] else before
  }

  /**
   The tag buffer of a message that was fitted to a version has exactly the tags that are set, exist at
   that version and encode, in the order of the descriptor. These are all that are set and exist
   at that version if and only if all of those encode.
   */
  lemma {:induction false} FittedTags(c: TagCodec, fields: seq<Field>, vs: seq<Value>, version: i16)
    requires |vs| == |fields|
    ensures TagNumbers(TagBuffer(c, fields, AtVersion(fields, vs, version))) == EncodedTags(c, fields, vs, version)
    ensures EncodedTags(c, fields, vs, version) == PresentTags(fields, vs, version) <==> AllEncode(c, fields, vs, version)
  {
    EncodedAll(c, fields, vs, version);
    if fields != [] {
      var n := |fields| - 1;
      FittedTags(c, fields[..n], vs[..n], version);
      var fitted := AtVersion(fields, vs, version);
      assert fitted[..n] == AtVersion(fields[..n], vs[..n], version);
      var before := TagBuffer(c, fields[..n], fitted[..n]);
      if Present(fields[n], vs[n], version) && Entry(c, fields[n], vs[n]).Some? {
        var last := TagField(fields[n].tag.value, Entry(c, fields[n], vs[n]).value);
        assert TagNumbers(before + [last]) == TagNumbers(before) + [last.tag];
      }
    }
  }

  lemma {:induction false} EncodedAll(c: TagCodec, fields: seq<Field>, vs: seq<Value>, version: i16)
    requires |vs| == |fields|
    ensures |EncodedTags(c, fields, vs, version)| <= |PresentTags(fields, vs, version)|
    ensures EncodedTags(c, fields, vs, version) == PresentTags(fields, vs, version) <==> AllEncode(c, fields, vs, version)
  {
    if fields != [] {
      var n := |fields| - 1;
      EncodedAll(c, fields[..n], vs[..n], version);
      AllEncodeSnoc(c, fields, vs, version);
      if Present(fields[n], vs[n], version) && Entry(c, fields[n], vs[n]).Some? {
        SnocEqual(EncodedTags(c, fields[..n], vs[..n], version), PresentTags(fields[..n], vs[..n], version), fields[n].tag.value);
      }
    }
  }

  lemma SnocEqual(a: seq<nat>, b: seq<nat>, x: nat)
    ensures a + [x] == b + [x] <==> a == b
  {
    if a + [x] == b + [x] {
      assert a == (a + [x])[..|a|] && b == (b + [x])[..|b|];
    }
  }

  lemma AllEncodeSnoc(c: TagCodec, fields: seq<Field>, vs: seq<Value>, version: i16)
    requires |vs| == |fields| && fields != []
    ensures
      var n := |fields| - 1;
      AllEncode(c, fields, vs, version) <==>
      AllEncode(c, fields[..n], vs[..n], version) && (Present(fields[n], vs[n], version) ==> Entry(c, fields[n], vs[n]).Some?)
  {
    var n := |fields| - 1;
    assert forall i :: 0 <= i < n ==> fields[..n][i] == fields[i] && vs[..n][i] == vs[i];
  }

  /**
   A tagged field that does not encode is dropped without an error: whatever the other fields are, the
   struct comes back with null there.
   */
  lemma LostTag(c: TagCodec, fields: seq<Field>, vs: seq<Value>, k: nat)
    requires WellFormed(fields) && |vs| == |fields| && k < |fields|
    requires fields[k].tag.Some? && Entry(c, fields[k], vs[k]).None?
    ensures |StructBack(c, fields, vs)| == |fields| && StructBack(c, fields, vs)[k] == Null
  {
    FindOwn(c, fields, vs, k);
    FieldsBack(c, fields, vs, TagBuffer(c, fields, vs), |fields|);
    assert fields[..|fields|] == fields && vs[..|fields|] == vs;
  }

  // ------------------------------------------------------------------ below the top level

  /** Every tagged field that is set exists at the version, at every level. */
  ghost predicate CleanFields(fields: seq<Field>, vs: seq<Value>, version: i16)
    decreases fields, 1
  {
    forall i :: 0 <= i < |fields| && i < |vs| && !vs[i].Null? ==>
      !Cleared(fields[i], version) && CleanKind(fields[i].kind, vs[i], version)
  }

  ghost predicate CleanKind(kind: Kind, v: Value, version: i16)
    decreases kind, 0
  {
    match kind
    case Primitive(_) => true
    case PrimitiveSequence(_) => true
    case StructSequence(children) =>
      v.List? ==> forall i :: 0 <= i < |v.items| && v.items[i].Record? ==> CleanFields(children, v.items[i].fields, version)
    case Struct(children) => v.Record? ==> CleanFields(children, v.fields, version)
  }

  /**
   Fitting leaves only tagged fields that exist at the version, at every level, if and only if this holds
   already below each field that it keeps.
   */
  lemma FittedCleanIff(fields: seq<Field>, vs: seq<Value>, version: i16)
    requires |vs| == |fields|
    ensures CleanFields(fields, AtVersion(fields, vs, version), version) <==>
            forall i :: 0 <= i < |fields| && !vs[i].Null? && !Cleared(fields[i], version) ==>
              CleanKind(fields[i].kind, vs[i], version)
  {
    var fitted := AtVersion(fields, vs, version);
    assert forall i :: 0 <= i < |fields| ==> fitted[i] == if Cleared(fields[i], version) then Null else vs[i];
  }

  /** At the top level fitting always does: a message with no structs in it comes out clean. */
  lemma FlatFitsClean(fields: seq<Field>, vs: seq<Value>, version: i16)
    requires |vs| == |fields| && forall i :: 0 <= i < |fields| ==> fields[i].kind.Primitive? || fields[i].kind.PrimitiveSequence?
    ensures CleanFields(fields, AtVersion(fields, vs, version), version)
  {
    FittedCleanIff(fields, vs, version);
  }

  /**
   Below it fitting does nothing: a struct field that is kept, with a tagged field set in it that the
   version does not have, makes the fitted message unclean. If that field encodes, its tag is in the
   buffer of the nested struct.
   */
  lemma NestedTagStays(c: TagCodec, fields: seq<Field>, vs: seq<Value>, version: i16, k: nat, j: nat)
    requires |vs| == |fields| && k < |fields| && !Cleared(fields[k], version)
    requires fields[k].kind.Struct? && vs[k].Record? && j < |vs[k].fields| == |fields[k].kind.children|
    requires !vs[k].fields[j].Null? && Cleared(fields[k].kind.children[j], version)
    requires WellFormed(fields[k].kind.children)
    ensures !CleanFields(fields, AtVersion(fields, vs, version), version)
    ensures
      var children := fields[k].kind.children;
      var nested := ToKind(c, fields[k].kind, AtVersion(fields, vs, version)[k]);
      && nested.MRecord?
      && Find(nested.tagBuffer, children[j].tag.value) == Entry(c, children[j], vs[k].fields[j])
  {
    var children, inner := fields[k].kind.children, vs[k].fields;
    assert !CleanFields(children, inner, version);
    assert !CleanKind(fields[k].kind, vs[k], version);
    FittedCleanIff(fields, vs, version);
    FindOwn(c, children, inner, j);
  }

  /** A message, at version 0, whose nested field came with version 1. */
  lemma SomeFitUnclean() returns (fields: seq<Field>, vs: seq<Value>, version: i16)
    ensures WellFormed(fields) && TypedFields(fields, vs)
    ensures !CleanFields(fields, AtVersion(fields, vs, version), version)
  {
    var inner := Field("inner", Primitive("int32"), VersionRange(1, I16_MAX), None, Some(0));
    fields := [Field("outer", Struct([inner]), VersionRange(0, I16_MAX), None, None)];
    vs, version := [Record([Atom([])])], 0;
    assert WellFormed([inner]) && TypedFields([inner], [Atom([])]);
    NestedTagStays(TagCodec((k, m) => None, (k, d) => None), fields, vs, version, 0, 0);
  }
}
