/**
 Message descriptors as the code generator reads them (nisshi-model/src/lib.rs), and the decisions
 that it takes on their versions (nisshi-sans-io/build.rs, `kind`, `is_optional`,
 `arbitrary_field_attribute`).
 */
module Schema {
  import opened Prelude

  const I16_MAX: i16 := 0x7fff

  datatype VersionRange = VersionRange(start: i16, end: i16) {

    predicate Within(version: i16) {
      start <= version <= end
    }

    /** `is_mandatory`, against the versions of the parent field, if there is one. */
    predicate IsMandatory(parent: Option<VersionRange>) {
      match parent
      case None => start == 0 && end == I16_MAX
      case Some(p) => if p.start > start then end == p.end else start == p.start && end == p.end
    }
  }

  datatype Kind =
    | Primitive(name: string)
    | PrimitiveSequence(name: string)
    | StructSequence(children: seq<Field>)
    | Struct(children: seq<Field>)

  datatype Field = Field(name: string, kind: Kind, versions: VersionRange, nullable: Option<VersionRange>, tag: Option<nat>)

  predicate IsSequence(kind: Kind) {
    kind.PrimitiveSequence? || kind.StructSequence?
  }

  /** The generated type of a field: the kind's type or a vector of it, in an `Option` or not. */
  datatype GeneratedType = Plain | Optional | OptionalVector

  function ParentVersions(parent: Option<Field>): Option<VersionRange> {
    if parent.Some? then Some(parent.value.versions) else None
  }

  /** `kind`. */
  function TypeOf(parent: Option<Field>, f: Field): GeneratedType {
    if f.tag.Some? then
      if IsSequence(f.kind) then OptionalVector else Optional
    else if IsSequence(f.kind) then OptionalVector
    else if f.nullable.None? && f.versions.IsMandatory(ParentVersions(parent)) then Plain
    else Optional
  }

  /** `is_optional`. */
  predicate IsOptional(parent: Option<Field>, f: Field) {
    f.tag.Some? || IsSequence(f.kind) || !(f.nullable.None? && f.versions.IsMandatory(ParentVersions(parent)))
  }

  /** `is_optional` says what `kind` generates, on every field. */
  lemma OptionalAgrees(parent: Option<Field>, f: Field)
    ensures IsOptional(parent, f) <==> TypeOf(parent, f) != Plain
    ensures IsSequence(f.kind) <==> TypeOf(parent, f) == OptionalVector
  {
  }

  /** A range is mandatory in a parent's exactly if it starts no later and ends at the same version. */
  lemma MandatoryIff(range: VersionRange, parent: VersionRange)
    ensures range.IsMandatory(Some(parent)) <==> range.start <= parent.start && range.end == parent.end
  {
  }

  /** The versions at which the parent of a field exists. A message has no version below zero. */
  predicate ParentExists(parent: Option<Field>, version: i16) {
    if parent.Some? then parent.value.versions.Within(version) else version >= 0
  }

  /** A field that is generated without `Option` exists at every version at which its parent exists. */
  lemma PlainAlwaysPresent(parent: Option<Field>, f: Field, version: i16)
    requires !IsOptional(parent, f) && ParentExists(parent, version)
    ensures f.versions.Within(version)
  {
    if parent.Some? {
      MandatoryIff(f.versions, parent.value.versions);
    }
  }

  /** The converse fails: a field can outlast its parent, and is then an `Option` that is always present. */
  lemma OptionalThoughPresent(parent: Field, f: Field)
    requires parent.versions == VersionRange(0, 5) && f.versions == VersionRange(0, I16_MAX)
    requires f.tag.None? && f.nullable.None? && !IsSequence(f.kind)
    ensures IsOptional(Some(parent), f)
    ensures forall version :: ParentExists(Some(parent), version) ==> f.versions.Within(version)
  {
  }

  /**
   A field is generated without `Option` exactly if it is neither tagged, nullable nor a sequence, exists at every
   version of its parent and ends with it. A field of the message itself must also start at version 0.
   */
  lemma PlainIff(parent: Option<Field>, f: Field)
    requires parent.Some? ==> parent.value.versions.start <= parent.value.versions.end
    ensures !IsOptional(parent, f) <==>
            && f.tag.None? && f.nullable.None? && !f.kind.PrimitiveSequence? && !f.kind.StructSequence?
            && (forall version :: ParentExists(parent, version) ==> f.versions.Within(version))
            && f.versions.end == (if parent.Some? then parent.value.versions.end else I16_MAX)
            && (parent.None? ==> f.versions.start == 0)
  {
    if parent.Some? {
      MandatoryIff(f.versions, parent.value.versions);
      if forall version :: ParentExists(parent, version) ==> f.versions.Within(version) {
        assert ParentExists(parent, parent.value.versions.start);
      }
    }
  }

  // ------------------------------------------------------------------ values for fuzzing

  /** The `#[arbitrary(..)]` attribute of a field: the default value, a given generator, or none. */
  datatype Attribute = DefaultValue | Bytes | SomeBytes | SomeValue | Derived

  predicate NullableAt(f: Field, version: i16) {
    f.nullable.Some? && f.nullable.value.Within(version)
  }

  function KindName(kind: Kind): string {
    match kind
    case Primitive(name) => name
    case PrimitiveSequence(name) => "[]" + name
    case StructSequence(_) => "[]struct"
    case Struct(_) => "struct"
  }

  /** `arbitrary_field_attribute`. */
  function AttributeOf(parent: Option<Field>, latest: i16, f: Field): Attribute {
    var optional := IsOptional(parent, f);
    if optional && !f.versions.Within(latest) then DefaultValue
    else if KindName(f.kind) == "bytes" then if optional then SomeBytes else Bytes
    else if KindName(f.kind) == "records" then DefaultValue
    else if optional && f.tag.None? && !NullableAt(f, latest) then SomeValue
    else Derived
  }

  /** A field that is an `Option` can come out as `None`. */
  predicate CanBeNone(a: Attribute) {
    a.DefaultValue? || a.Derived?
  }

  /** A field that is an `Option` can come out as `Some`. */
  predicate CanBeSome(a: Attribute) {
    !a.DefaultValue?
  }

  /**
   For an optional field that is neither `bytes` nor `records`: `Some` comes out exactly if the field
   exists at the latest version, and `None` exactly if it does not, or it is tagged or nullable there.
   */
  lemma ArbitraryMatchesLatest(parent: Option<Field>, latest: i16, f: Field)
    requires IsOptional(parent, f) && KindName(f.kind) !in {"bytes", "records"}
    ensures CanBeSome(AttributeOf(parent, latest, f)) <==> f.versions.Within(latest)
    ensures CanBeNone(AttributeOf(parent, latest, f)) <==>
            !f.versions.Within(latest) || f.tag.Some? || NullableAt(f, latest)
  {
  }

  /** A field that is no `Option` gets the generator of its name, if it has one. */
  lemma ArbitraryPlain(parent: Option<Field>, latest: i16, f: Field)
    requires !IsOptional(parent, f)
    ensures AttributeOf(parent, latest, f) == Bytes <==> f.kind == Primitive("bytes")
    ensures AttributeOf(parent, latest, f) == DefaultValue <==> f.kind == Primitive("records")
    ensures AttributeOf(parent, latest, f) in {Bytes, DefaultValue, Derived}
  {
    assert "struct"[0] == 's' && "records"[0] == 'r' && "bytes"[0] == 'b';
  }

  /** Of an optional `bytes` field `Some` alone comes out if it exists at the latest version, and of `records` `None` alone. */
  lemma ArbitraryBytesAndRecords(parent: Option<Field>, latest: i16, f: Field)
    requires IsOptional(parent, f)
    ensures KindName(f.kind) == "bytes" ==>
              (CanBeSome(AttributeOf(parent, latest, f)) <==> f.versions.Within(latest))
              && (CanBeNone(AttributeOf(parent, latest, f)) <==> !f.versions.Within(latest))
    ensures KindName(f.kind) == "records" ==> AttributeOf(parent, latest, f) == DefaultValue
  {
  }
}
