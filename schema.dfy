/**
 * The two mongoose schemas of the server (zone and template): the shape of a
 * stored document, the validation mongoose runs on `save`, and the defaults it
 * fills in when a path is missing.
 */
module Schema {
  import opened Text

  /**
   * A JSON property as mongoose sees it: missing (`undefined`, the only case
   * in which a default applies), explicitly `null`, or present.
   */
  datatype Field<T> = Absent | Null | Given(value: T)

  /** One zone sub-document; every property as it arrives in the request JSON. */
  datatype ZoneDoc = ZoneDoc(
    kind: Field<string>,          // the `type` property
    x: Field<real>,
    y: Field<real>,
    width: Field<real>,
    height: Field<real>,
    fontSize: Field<real>,
    fontColor: Field<string>,
    textAlign: Field<string>,
    verticalAlign: Field<string>,
    zIndex: Field<real>)

  const ZoneKinds: set<string> := {"text", "image"}
  const TextAligns: set<string> := {"left", "center", "right"}
  const VerticalAligns: set<string> := {"top", "middle", "bottom"}

  const DefaultFontSize: real := 32.0
  const DefaultFontColor: string := "#ffffff"
  const DefaultTextAlign: string := "center"
  const DefaultVerticalAlign: string := "middle"
  const DefaultZIndex: real := 0.0

  /** A required Number with `min: 0, max: 1`. */
  predicate UnitFraction(f: Field<real>) {
    f.Given? && 0.0 <= f.value <= 1.0
  }

  /** An optional String with an `enum`: `null` and a missing value pass. */
  predicate InEnum(f: Field<string>, values: set<string>) {
    f.Given? ==> f.value in values
  }

  /**
   * Mongoose validation of a zone: `type` required and one of text/image, the
   * four coordinates required and within [0, 1], the two alignments within
   * their enums. Nothing relates x to width or y to height.
   */
  predicate ValidZone(z: ZoneDoc) {
    && z.kind.Given? && z.kind.value in ZoneKinds
    && UnitFraction(z.x) && UnitFraction(z.y)
    && UnitFraction(z.width) && UnitFraction(z.height)
    && InEnum(z.textAlign, TextAligns)
    && InEnum(z.verticalAlign, VerticalAligns)
  }

  function Default<T>(f: Field<T>, d: T): Field<T> {
    if f.Absent? then Given(d) else f
  }

  /** No defaulted path is missing. */
  predicate Complete(z: ZoneDoc) {
    z.fontSize != Absent && z.fontColor != Absent && z.textAlign != Absent
    && z.verticalAlign != Absent && z.zIndex != Absent
  }

  /** `b` keeps every property that `a` supplies. */
  predicate KeepsSupplied(a: ZoneDoc, b: ZoneDoc) {
    && b.kind == a.kind && b.x == a.x && b.y == a.y && b.width == a.width && b.height == a.height
    && (a.fontSize != Absent ==> b.fontSize == a.fontSize)
    && (a.fontColor != Absent ==> b.fontColor == a.fontColor)
    && (a.textAlign != Absent ==> b.textAlign == a.textAlign)
    && (a.verticalAlign != Absent ==> b.verticalAlign == a.verticalAlign)
    && (a.zIndex != Absent ==> b.zIndex == a.zIndex)
  }

  /**
   * The zone schema's defaults: fontSize 32, fontColor "#ffffff", textAlign
   * "center", verticalAlign "middle", zIndex 0. The defaults are themselves
   * valid, so they never make a zone valid or invalid.
   */
  function WithDefaults(z: ZoneDoc): (r: ZoneDoc)
    ensures Complete(r) && KeepsSupplied(z, r)
    ensures z.fontSize == Absent ==> r.fontSize == Given(DefaultFontSize)
    ensures z.fontColor == Absent ==> r.fontColor == Given(DefaultFontColor)
    ensures z.textAlign == Absent ==> r.textAlign == Given(DefaultTextAlign)
    ensures z.verticalAlign == Absent ==> r.verticalAlign == Given(DefaultVerticalAlign)
    ensures z.zIndex == Absent ==> r.zIndex == Given(DefaultZIndex)
    ensures ValidZone(r) <==> ValidZone(z)
  {
    z.(fontSize := Default(z.fontSize, DefaultFontSize),
       fontColor := Default(z.fontColor, DefaultFontColor),
       textAlign := Default(z.textAlign, DefaultTextAlign),
       verticalAlign := Default(z.verticalAlign, DefaultVerticalAlign),
       zIndex := Default(z.zIndex, DefaultZIndex))
  }

  /** A zone that supplies every defaulted path is stored as it is. */
  lemma CompleteZoneUnchanged(z: ZoneDoc)
    requires Complete(z)
    ensures WithDefaults(z) == z
  {
  }

  /** Casting an array of zones: the defaults applied to each element, in order. */
  function ZonesWithDefaults(zs: seq<ZoneDoc>): (r: seq<ZoneDoc>)
    ensures |r| == |zs|
    ensures forall i :: 0 <= i < |r| ==> r[i] == WithDefaults(zs[i])
  {
    seq(|zs|, i requires 0 <= i < |zs| => WithDefaults(zs[i]))
  }

  /** Defaults applied twice are the defaults applied once. */
  lemma {:induction false} ZonesWithDefaultsIdempotent(zs: seq<ZoneDoc>)
    ensures ZonesWithDefaults(ZonesWithDefaults(zs)) == ZonesWithDefaults(zs)
  {
    var once := ZonesWithDefaults(zs);
    forall i | 0 <= i < |once|
      ensures ZonesWithDefaults(once)[i] == once[i]
    {
      CompleteZoneUnchanged(once[i]);
    }
  }

  /**
   * A Number path (`width`, `height`) of the template: not set, a pixel count,
   * or the NaN that `parseInt` yields on text that is not a number (which
   * mongoose refuses to cast).
   */
  datatype Dim = Unset | Px(n: int) | NotANumber

  /** A stored template document (`_id` and `updatedAt` are kept by the store). */
  datatype Template = Template(
    name: string,
    imageUrl: string,
    imageFilename: string,
    cloudinaryPublicId: string,
    width: Dim,
    height: Dim,
    zones: seq<ZoneDoc>,
    tags: seq<string>,
    category: string,
    usageCount: nat,
    createdAt: nat)

  /**
   * Mongoose validation of a template: name (already trimmed by the schema's
   * `trim` setter), imageUrl, imageFilename and cloudinaryPublicId required and
   * non-empty, width and height castable to Number, every zone valid.
   */
  predicate ValidTemplate(t: Template) {
    && t.name != "" && t.imageUrl != "" && t.imageFilename != "" && t.cloudinaryPublicId != ""
    && t.width != NotANumber && t.height != NotANumber
    && forall i :: 0 <= i < |t.zones| ==> ValidZone(t.zones[i])
  }

  /** The store's document identifier (an ObjectId, generated by the store). */
  type Id = string

  /** A document of the collection together with its `_id`. */
  datatype Record = Record(id: Id, template: Template)
}
