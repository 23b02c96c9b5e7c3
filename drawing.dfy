/**
 * The pure geometry and list helpers of the zone editor: the drag rectangle,
 * the division into canvas fractions and the scaling back, the zone a drag
 * creates, deleting and editing a zone by index, and the tag input.
 * Coordinates are exact reals.
 */
module Drawing {
  import opened Wrappers
  import opened Text
  import opened Schema

  datatype Point = Point(x: real, y: real)

  /** A rectangle by its top-left corner and its size. */
  datatype Rect = Rect(x: real, y: real, width: real, height: real)

  /** The two zone kinds the editor's buttons offer. */
  datatype Kind = TextZone | ImageZone

  function KindName(k: Kind): string {
    match k
    case TextZone => "text"
    case ImageZone => "image"
  }

  function Min(a: real, b: real): real {
    if a <= b then a else b
  }

  function Abs(a: real): real {
    if a < 0.0 then -a else a
  }

  /** A point of a canvas `width` by `height` pixels. */
  predicate OnCanvas(p: Point, width: real, height: real) {
    0.0 <= p.x <= width && 0.0 <= p.y <= height
  }

  /** A rectangle that lies within a canvas `width` by `height` pixels. */
  predicate Inside(r: Rect, width: real, height: real) {
    && 0.0 <= r.x && 0.0 <= r.y && 0.0 <= r.width && 0.0 <= r.height
    && r.x + r.width <= width && r.y + r.height <= height
  }

  /**
   * The preview rectangle of a drag from `start` to `p`: the bounding box of
   * the two points, whichever way the pointer went.
   */
  function DragBox(start: Point, p: Point): (r: Rect)
    ensures r.width >= 0.0 && r.height >= 0.0
    ensures (r.x == start.x && r.x + r.width == p.x) || (r.x == p.x && r.x + r.width == start.x)
    ensures (r.y == start.y && r.y + r.height == p.y) || (r.y == p.y && r.y + r.height == start.y)
  {
    Rect(Min(start.x, p.x), Min(start.y, p.y), Abs(p.x - start.x), Abs(p.y - start.y))
  }

  /** Dragging from either corner to the other gives the same rectangle. */
  lemma DragBoxSymmetric(a: Point, b: Point)
    ensures DragBox(a, b) == DragBox(b, a)
  {
  }

  /** A drag between two points of the canvas stays inside the canvas. */
  lemma DragBoxInside(start: Point, p: Point, width: real, height: real)
    requires OnCanvas(start, width, height) && OnCanvas(p, width, height)
    ensures Inside(DragBox(start, p), width, height)
  {
  }

  /** Pixels to fractions of the canvas, as the zone is stored. */
  function Normalize(r: Rect, width: real, height: real): (n: Rect)
    requires width > 0.0 && height > 0.0
    ensures n.x * width == r.x && n.width * width == r.width
    ensures n.y * height == r.y && n.height * height == r.height
  {
    Rect(r.x / width, r.y / height, r.width / width, r.height / height)
  }

  /** Fractions back to pixels, as the canvas draws a stored zone. */
  function Scale(n: Rect, width: real, height: real): Rect {
    Rect(n.x * width, n.y * height, n.width * width, n.height * height)
  }

  /** Redrawing on the canvas a zone was drawn on gives back the drawn pixels. */
  lemma ScaleNormalize(r: Rect, width: real, height: real)
    requires width > 0.0 && height > 0.0
    ensures Scale(Normalize(r, width, height), width, height) == r
  {
  }

  /** Scaling to a canvas and dividing by it again gives back the fractions. */
  lemma NormalizeScale(n: Rect, width: real, height: real)
    requires width > 0.0 && height > 0.0
    ensures Normalize(Scale(n, width, height), width, height) == n
  {
    var s := Scale(n, width, height);
    var m := Normalize(s, width, height);
    assert m.x * width == n.x * width;
    assert m.y * height == n.y * height;
    assert m.width * width == n.width * width;
    assert m.height * height == n.height * height;
  }

  /** The fractions of a rectangle inside the canvas lie in [0, 1] and so do their sums. */
  lemma NormalizeInUnit(r: Rect, width: real, height: real)
    requires width > 0.0 && height > 0.0
    requires Inside(r, width, height)
    ensures Inside(Normalize(r, width, height), 1.0, 1.0)
  {
    var n := Normalize(r, width, height);
    assert (n.x + n.width) * width == r.x + r.width;
    assert (n.y + n.height) * height == r.y + r.height;
  }

  /** A stored zone redrawn on a canvas of any size lies inside that canvas. */
  lemma ScaleInside(n: Rect, width: real, height: real)
    requires width > 0.0 && height > 0.0
    requires Inside(n, 1.0, 1.0)
    ensures Inside(Scale(n, width, height), width, height)
  {
    var s := Scale(n, width, height);
    assert s.x + s.width == (n.x + n.width) * width;
    assert s.y + s.height == (n.y + n.height) * height;
    assert (1.0 - (n.x + n.width)) * width >= 0.0;
    assert (1.0 - (n.y + n.height)) * height >= 0.0;
  }

  /**
   * The zone a finished drag adds: the rectangle as fractions of the canvas,
   * the text styling defaults for a text zone and null styling for an image
   * zone, and the current number of zones as its `zIndex`.
   */
  function NewZone(kind: Kind, r: Rect, width: real, height: real, count: nat): (z: ZoneDoc)
    requires width > 0.0 && height > 0.0
    ensures z.kind == Given(KindName(kind))
    ensures z.x.Given? && z.x.value * width == r.x
    ensures z.y.Given? && z.y.value * height == r.y
    ensures z.width.Given? && z.width.value * width == r.width
    ensures z.height.Given? && z.height.value * height == r.height
    ensures kind == TextZone ==>
      && z.fontSize == Given(DefaultFontSize) && z.fontColor == Given(DefaultFontColor)
      && z.textAlign == Given(DefaultTextAlign) && z.verticalAlign == Given(DefaultVerticalAlign)
    ensures kind == ImageZone ==>
      z.fontSize == Null && z.fontColor == Null && z.textAlign == Null && z.verticalAlign == Null
    ensures z.zIndex == Given(count as real)
  {
    var n := Normalize(r, width, height);
    var text := kind == TextZone;
    ZoneDoc(
      Given(KindName(kind)),
      Given(n.x), Given(n.y), Given(n.width), Given(n.height),
      if text then Given(32.0) else Null,
      if text then Given("#ffffff") else Null,
      if text then Given("center") else Null,
      if text then Given("middle") else Null,
      Given(count as real))
  }

  /**
   * A zone drawn inside the canvas passes the server's zone validation, and
   * the server's defaults leave it as it is.
   */
  lemma DrawnZoneValid(kind: Kind, r: Rect, width: real, height: real, count: nat)
    requires width > 0.0 && height > 0.0
    requires Inside(r, width, height)
    ensures ValidZone(NewZone(kind, r, width, height, count))
    ensures WithDefaults(NewZone(kind, r, width, height, count)) == NewZone(kind, r, width, height, count)
  {
    NormalizeInUnit(r, width, height);
    var z := NewZone(kind, r, width, height, count);
    assert z.x.value == Normalize(r, width, height).x;
    assert z.y.value == Normalize(r, width, height).y;
    assert z.width.value == Normalize(r, width, height).width;
    assert z.height.value == Normalize(r, width, height).height;
  }

  /** `zones.filter((_, i) => i !== idx)`: the zone at `idx` goes, the others keep their order. */
  function WithoutZone(zs: seq<ZoneDoc>, idx: int): (r: seq<ZoneDoc>)
    ensures 0 <= idx < |zs| ==> |r| == |zs| - 1
    ensures 0 <= idx < |zs| ==> forall i {:trigger r[i]} :: 0 <= i < |r| ==> r[i] == if i < idx then zs[i] else zs[i + 1]
    ensures !(0 <= idx < |zs|) ==> r == zs
  {
    if zs == [] then []
    else
      assert zs == [zs[0]] + zs[1..];
      if idx == 0 then WithoutZone(zs[1..], -1)
      else
        var rest := WithoutZone(zs[1..], idx - 1);
        var r := [zs[0]] + rest;
        assert forall k :: 0 <= k < |zs| - 1 ==> zs[1..][k] == zs[k + 1];
        r
  }

  /**
   * Deleting does not renumber `zIndex`: with zones numbered 0 to n-1,
   * deleting any zone but the last and drawing a new one gives two zones the
   * same `zIndex`.
   */
  lemma {:induction false} DeleteThenDrawRepeatsZIndex(
    zs: seq<ZoneDoc>, idx: int, kind: Kind, r: Rect, width: real, height: real)
    requires width > 0.0 && height > 0.0
    requires forall i :: 0 <= i < |zs| ==> zs[i].zIndex == Given(i as real)
    requires 0 <= idx < |zs| - 1
    ensures var kept := WithoutZone(zs, idx);
      var after := kept + [NewZone(kind, r, width, height, |kept|)];
      after[|after| - 2].zIndex == after[|after| - 1].zIndex
  {
    var kept := WithoutZone(zs, idx);
    var after := kept + [NewZone(kind, r, width, height, |kept|)];
    assert after[|after| - 2] == kept[|kept| - 1] == zs[|zs| - 1];
  }

  /** The properties the zone panel edits, with the value its input yields. */
  datatype ZoneProperty =
    | FontSize(size: Option<int>)  // `parseInt` of the input; `None` is NaN, which JSON writes as null
    | FontColor(color: string)
    | TextAlign(align: string)
    | VerticalAlign(align: string)

  /** `{ ...z, [property]: value }`. */
  function SetProperty(z: ZoneDoc, p: ZoneProperty): (r: ZoneDoc)
    ensures r.kind == z.kind && r.x == z.x && r.y == z.y && r.width == z.width && r.height == z.height
    ensures r.zIndex == z.zIndex
    ensures !p.FontSize? ==> r.fontSize == z.fontSize
    ensures !p.FontColor? ==> r.fontColor == z.fontColor
    ensures !p.TextAlign? ==> r.textAlign == z.textAlign
    ensures !p.VerticalAlign? ==> r.verticalAlign == z.verticalAlign
    ensures p.FontSize? ==> r.fontSize == if p.size.Some? then Given(p.size.value as real) else Null
    ensures p.FontColor? ==> r.fontColor == Given(p.color)
    ensures p.TextAlign? ==> r.textAlign == Given(p.align)
    ensures p.VerticalAlign? ==> r.verticalAlign == Given(p.align)
  {
    match p
    case FontSize(size) => z.(fontSize := if size.Some? then Given(size.value as real) else Null)
    case FontColor(color) => z.(fontColor := Given(color))
    case TextAlign(align) => z.(textAlign := Given(align))
    case VerticalAlign(align) => z.(verticalAlign := Given(align))
  }

  /** The values the panel's selects offer. */
  predicate Offered(p: ZoneProperty) {
    match p
    case TextAlign(align) => align in TextAligns
    case VerticalAlign(align) => align in VerticalAligns
    case _ => true
  }

  /** An edit through the panel keeps a valid zone valid. */
  lemma SetPropertyKeepsValid(z: ZoneDoc, p: ZoneProperty)
    requires ValidZone(z) && Offered(p)
    ensures ValidZone(SetProperty(z, p))
  {
  }

  /** `zones.map((z, i) => i === idx ? { ...z, [property]: value } : z)`. */
  function WithZoneProperty(zs: seq<ZoneDoc>, idx: int, p: ZoneProperty): (r: seq<ZoneDoc>)
    ensures |r| == |zs|
    ensures forall i :: 0 <= i < |zs| && i != idx ==> r[i] == zs[i]
    ensures 0 <= idx < |zs| ==> r[idx] == SetProperty(zs[idx], p)
  {
    seq(|zs|, i requires 0 <= i < |zs| => if i == idx then SetProperty(zs[i], p) else zs[i])
  }

  /** The non-empty strings of `ts`, in order: `filter(t => t)`. */
  function NonEmpty(ts: seq<string>): (r: seq<string>)
    ensures |r| <= |ts|
    ensures forall t :: t in r <==> t in ts && t != ""
    ensures forall t :: multiset(r)[t] == if t == "" then 0 else multiset(ts)[t]
  {
    if ts == [] then []
    else
      assert ts == [ts[0]] + ts[1..];
      if ts[0] == "" then NonEmpty(ts[1..]) else [ts[0]] + NonEmpty(ts[1..])
  }

  lemma {:induction false} NonEmptyOfNonEmpty(ts: seq<string>)
    requires forall i :: 0 <= i < |ts| ==> ts[i] != ""
    ensures NonEmpty(ts) == ts
  {
    if ts != [] {
      NonEmptyOfNonEmpty(ts[1..]);
      assert ts == [ts[0]] + ts[1..];
    }
  }

  /** The tag input as the form sends it: split at commas, trimmed, empty tags dropped. */
  function ParseTags(s: string): (tags: seq<string>)
    ensures forall t :: t in tags ==> t != "" && Trimmed(t)
  {
    NonEmpty(SplitTrimmed(s, ','))
  }

  /** A tag fit for the input: non-empty, trimmed and free of commas. */
  predicate CleanTag(t: string) {
    t != "" && Trimmed(t) && ',' !in t
  }

  /** `tags.join(", ")` of non-empty tags is the comma join of each tag after a space but the first. */
  lemma {:induction false} JoinSpaced(ts: seq<string>)
    requires |ts| >= 1
    ensures Join(ts, ", ") == Join([ts[0]] + Spaced(ts[1..]), [','])
  {
    if |ts| > 1 {
      JoinSpaced(ts[1..]);
      var tail := ts[1..];
      assert tail[1..] == ts[2..];
      assert ([ts[0]] + Spaced(tail))[1..] == Spaced(tail) == [" " + tail[0]] + Spaced(tail[1..]);
      assert Join(Spaced(tail), [',']) == Join([" " + tail[0]] + Spaced(tail[1..]), [',']);
      assert Join(ts, ", ") == ts[0] + ", " + Join(tail, ", ");
      assert Join(tail, ", ") == Join([tail[0]] + Spaced(tail[1..]), [',']);
      if |tail| == 1 {
        assert Join([" " + tail[0]] + Spaced(tail[1..]), [',']) == " " + tail[0];
      } else {
        assert ([tail[0]] + Spaced(tail[1..]))[1..] == Spaced(tail[1..]);
        assert ([" " + tail[0]] + Spaced(tail[1..]))[1..] == Spaced(tail[1..]);
      }
    }
  }

  /** Each tag after a space. */
  function Spaced(ts: seq<string>): (r: seq<string>)
    ensures |r| == |ts|
    ensures forall i :: 0 <= i < |ts| ==> r[i] == " " + ts[i]
  {
    if ts == [] then [] else [" " + ts[0]] + Spaced(ts[1..])
  }

  /** The comma pieces of joined clean tags: the first tag, then each other one after its space. */
  lemma SplitJoinedTags(ts: seq<string>)
    requires |ts| >= 1
    requires forall i :: 0 <= i < |ts| ==> CleanTag(ts[i])
    ensures Split(Join(ts, ", "), ',') == [ts[0]] + Spaced(ts[1..])
  {
    var ps := [ts[0]] + Spaced(ts[1..]);
    JoinSpaced(ts);
    forall i | 0 <= i < |ps| ensures ',' !in ps[i] {
      if i > 0 {
        assert ps[i] == " " + ts[i];
      }
    }
    SplitJoin(ps, ',');
  }

  /** Trimming those pieces gives back the tags. */
  lemma TrimJoinedTags(ts: seq<string>)
    requires |ts| >= 1
    requires forall i :: 0 <= i < |ts| ==> CleanTag(ts[i])
    ensures SplitTrimmed(Join(ts, ", "), ',') == ts
  {
    SplitJoinedTags(ts);
    var ps := [ts[0]] + Spaced(ts[1..]);
    var trimmed := SplitTrimmed(Join(ts, ", "), ',');
    assert |trimmed| == |ts|;
    forall i | 0 <= i < |ts| ensures trimmed[i] == ts[i] {
      assert trimmed[i] == Trim(ps[i]);
      if i == 0 {
        TrimOfTrimmed(ts[0]);
      } else {
        assert ps[i] == Spaced(ts[1..])[i - 1] == [' '] + ts[i];
        TrimLeadingSpace(ts[i]);
      }
    }
  }

  /**
   * Loading a template writes its tags as `tags.join(", ")`; saving parses
   * that text back into the same tags, as long as each tag is clean.
   */
  lemma TagsRoundTrip(ts: seq<string>)
    requires forall i :: 0 <= i < |ts| ==> CleanTag(ts[i])
    ensures ParseTags(Join(ts, ", ")) == ts
  {
    if ts == [] {
      assert SplitTrimmed("", ',') == [""];
      assert NonEmpty([""]) == NonEmpty([]);
    } else {
      TrimJoinedTags(ts);
      NonEmptyOfNonEmpty(ts);
    }
  }

  /** A tag holding one comma does not survive the round trip: it comes back as the two tags around it. */
  lemma CommaTagSplits(a: string, b: string)
    requires CleanTag(a) && CleanTag(b)
    ensures ParseTags(Join([a + "," + b], ", ")) == [a, b]
  {
    assert Join([a + "," + b], ", ") == a + "," + b;
    assert Join([a, b], [',']) == a + "," + b;
    SplitJoin([a, b], ',');
    TrimOfTrimmed(a);
    TrimOfTrimmed(b);
    assert SplitTrimmed(a + "," + b, ',') == [a, b];
    NonEmptyOfNonEmpty([a, b]);
  }
}
