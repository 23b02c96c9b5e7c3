/**
 * The template editor's state: the form, the zones drawn so far and the drag
 * in progress. Each handler of the page is a method that updates the fields
 * its setters update; what the save button would send is a function of the
 * state.
 */
module ZoneEditor {
  import opened Wrappers
  import opened Text
  import opened Schema
  import opened Drawing

  /** The API's origin: `API_URL` without its `/api` suffix. */
  const ServerOrigin: string := "http://localhost:3000"

  /** The image the file input picked, with the natural size it loads at. */
  datatype ImageFile = ImageFile(name: string, naturalWidth: nat, naturalHeight: nat)

  datatype Method = Post | Put(id: Id)

  /** The form data `saveTemplate` sends and where it sends it. */
  datatype Request = Request(
    verb: Method,
    name: string,
    category: string,
    tags: seq<string>,
    zones: seq<ZoneDoc>,
    image: Option<ImageFile>)

  /**
   * What the save button sends for a form: nothing unless there is a name,
   * an image (picked or already stored) and at least one zone; a PUT to the
   * loaded template's id, otherwise a POST; the tag input parsed.
   */
  function SubmissionOf(name: string, category: string, tags: string, zones: seq<ZoneDoc>,
                        image: Option<ImageFile>, loaded: Option<Record>): (r: Option<Request>)
    ensures r.Some? <==> name != "" && (image.Some? || loaded.Some?) && |zones| > 0
    ensures r.Some? && loaded.Some? ==> r.value.verb == Put(loaded.value.id)
    ensures r.Some? && loaded.None? ==> r.value.verb == Post
    ensures r.Some? ==> r.value.zones == zones && r.value.image == image
    ensures r.Some? ==> r.value.name == name && r.value.category == category
    ensures r.Some? ==> forall t :: t in r.value.tags ==> t != "" && Trimmed(t)
  {
    if name == "" || (image.None? && loaded.None?) || |zones| == 0 then None
    else
      Some(Request(
        if loaded.Some? then Put(loaded.value.id) else Post,
        name, category, ParseTags(tags), zones, image))
  }

  /**
   * Saving a template straight after loading it is a PUT of that template
   * whenever it has a zone, and it carries the template's tags back
   * unchanged when they are clean.
   */
  lemma LoadedSubmission(t: Record, image: Option<ImageFile>)
    requires ValidTemplate(t.template)
    ensures var category := if t.template.category == "" then "general" else t.template.category;
      var r := SubmissionOf(t.template.name, category, Join(t.template.tags, ", "), t.template.zones, image, Some(t));
      && (r.Some? <==> |t.template.zones| > 0)
      && (r.Some? ==> r.value.verb == Put(t.id))
      && (r.Some? && (forall i :: 0 <= i < |t.template.tags| ==> CleanTag(t.template.tags[i])) ==>
            r.value.tags == t.template.tags)
  {
    if forall i :: 0 <= i < |t.template.tags| ==> CleanTag(t.template.tags[i]) {
      TagsRoundTrip(t.template.tags);
    }
  }

  class Editor {
    var zones: seq<ZoneDoc>
    var isDrawing: bool
    var drawStart: Option<Point>
    var currentZone: Option<Rect>       // the preview rectangle, in canvas pixels
    var zoneType: Kind
    var canvasWidth: real
    var canvasHeight: real
    var currentTemplate: Option<Record>
    var templateName: string
    var category: string
    var tags: string
    var imageFile: Option<ImageFile>
    var imagePreview: Option<string>

    /**
     * A drag is in progress exactly when it has a start point; a preview
     * exists only during a drag; both lie on the canvas; every zone passes
     * the server's zone validation.
     */
    ghost predicate Valid()
      reads this
    {
      && canvasWidth > 0.0 && canvasHeight > 0.0
      && (isDrawing <==> drawStart.Some?)
      && (drawStart.Some? ==> OnCanvas(drawStart.value, canvasWidth, canvasHeight))
      && (currentZone.Some? ==> isDrawing && Inside(currentZone.value, canvasWidth, canvasHeight))
      && (forall i :: 0 <= i < |zones| ==> ValidZone(zones[i]))
    }

    /** The initial state; the canvas has the 300 by 150 pixels of an HTML canvas without a size. */
    constructor()
      ensures Valid()
      ensures zones == [] && !isDrawing && drawStart == None && currentZone == None
      ensures zoneType == TextZone && canvasWidth == 300.0 && canvasHeight == 150.0
      ensures currentTemplate == None && templateName == "" && category == "general" && tags == ""
      ensures imageFile == None && imagePreview == None
    {
      zones := [];
      isDrawing := false;
      drawStart := None;
      currentZone := None;
      zoneType := TextZone;
      canvasWidth := 300.0;
      canvasHeight := 150.0;
      currentTemplate := None;
      templateName := "";
      category := "general";
      tags := "";
      imageFile := None;
      imagePreview := None;
    }

    /** handleMouseDown: the drag starts at `p`. */
    method MouseDown(p: Point)
      requires Valid() && OnCanvas(p, canvasWidth, canvasHeight)
      modifies this`isDrawing, this`drawStart
      ensures Valid()
      ensures isDrawing && drawStart == Some(p)
    {
      isDrawing := true;
      drawStart := Some(p);
    }

    /** handleMouseMove: during a drag the preview becomes the box from the start to `p`. */
    method MouseMove(p: Point)
      requires Valid() && OnCanvas(p, canvasWidth, canvasHeight)
      modifies this`currentZone
      ensures Valid()
      ensures isDrawing ==> currentZone == Some(DragBox(drawStart.value, p))
      ensures !isDrawing ==> currentZone == old(currentZone)
    {
      if isDrawing {
        DragBoxInside(drawStart.value, p, canvasWidth, canvasHeight);
        currentZone := Some(DragBox(drawStart.value, p));
      }
    }

    /**
     * handleMouseUp (also bound to the pointer leaving the canvas): a preview
     * wider and taller than 10 pixels becomes a new zone at the end of the
     * list; in every case the drag ends.
     */
    method MouseUp()
      requires Valid()
      modifies this`zones, this`isDrawing, this`drawStart, this`currentZone
      ensures Valid()
      ensures !isDrawing && drawStart == None && currentZone == None
      ensures old(isDrawing) && old(currentZone).Some? && old(currentZone).value.width > 10.0
                && old(currentZone).value.height > 10.0 ==>
              zones == old(zones) + [NewZone(zoneType, old(currentZone).value, canvasWidth, canvasHeight, |old(zones)|)]
      ensures !(old(isDrawing) && old(currentZone).Some? && old(currentZone).value.width > 10.0
                && old(currentZone).value.height > 10.0) ==>
              zones == old(zones)
    {
      if isDrawing && currentZone.Some? && currentZone.value.width > 10.0 && currentZone.value.height > 10.0 {
        var zone := NewZone(zoneType, currentZone.value, canvasWidth, canvasHeight, |zones|);
        DrawnZoneValid(zoneType, currentZone.value, canvasWidth, canvasHeight, |zones|);
        zones := zones + [zone];
      }
      isDrawing := false;
      currentZone := None;
      drawStart := None;
    }

    /** The two zone-kind buttons. */
    method SelectZoneType(kind: Kind)
      requires Valid()
      modifies this`zoneType
      ensures Valid() && zoneType == kind
    {
      zoneType := kind;
    }

    /**
     * The resizing in drawCanvas: once the image has loaded, the canvas takes
     * its natural size. The image cannot change under a drag in progress.
     */
    method DrawCanvas(width: real, height: real)
      requires Valid() && width > 0.0 && height > 0.0
      requires isDrawing ==> width == canvasWidth && height == canvasHeight
      modifies this`canvasWidth, this`canvasHeight
      ensures Valid() && canvasWidth == width && canvasHeight == height
    {
      canvasWidth := width;
      canvasHeight := height;
    }

    /**
     * handleImageUpload with the reader's load folded in: a picked file
     * becomes the image to upload, its data URL the preview, and the zones
     * are cleared; no file changes nothing.
     */
    method ImageSelected(file: Option<ImageFile>, dataUrl: string)
      requires Valid()
      modifies this`imageFile, this`imagePreview, this`zones
      ensures Valid()
      ensures file.Some? ==> imageFile == file && imagePreview == Some(dataUrl) && zones == []
      ensures file.None? ==> imageFile == old(imageFile) && imagePreview == old(imagePreview) && zones == old(zones)
    {
      if file.Some? {
        imageFile := file;
        imagePreview := Some(dataUrl);
        zones := [];
      }
    }

    /** The name, category and tag inputs. */
    method EditForm(name: string, newCategory: string, newTags: string)
      requires Valid()
      modifies this`templateName, this`category, this`tags
      ensures Valid() && templateName == name && category == newCategory && tags == newTags
    {
      templateName := name;
      category := newCategory;
      tags := newTags;
    }

    /** resetForm: the form back to its initial values; the drag state and the zone kind stay. */
    method ResetForm()
      requires Valid()
      modifies this`currentTemplate, this`templateName, this`category, this`tags,
               this`imageFile, this`imagePreview, this`zones
      ensures Valid()
      ensures currentTemplate == None && templateName == "" && category == "general" && tags == ""
      ensures imageFile == None && imagePreview == None && zones == []
    {
      currentTemplate := None;
      templateName := "";
      category := "general";
      tags := "";
      imageFile := None;
      imagePreview := None;
      zones := [];
    }

    /** What the save button would send now. */
    function Submission(): (r: Option<Request>)
      reads this
      ensures r.Some? <==> templateName != "" && (imageFile.Some? || currentTemplate.Some?) && |zones| > 0
      ensures r.Some? ==> r.value.verb == if currentTemplate.Some? then Put(currentTemplate.value.id) else Post
      ensures r.Some? ==> r.value.zones == zones && r.value.image == imageFile
    {
      SubmissionOf(templateName, category, tags, zones, imageFile, currentTemplate)
    }

    /**
     * saveTemplate: sends the submission when there is one; a successful
     * answer resets the form, anything else leaves the state as it was.
     */
    method SaveTemplate(succeeded: bool) returns (sent: Option<Request>)
      requires Valid()
      modifies this`currentTemplate, this`templateName, this`category, this`tags,
               this`imageFile, this`imagePreview, this`zones
      ensures Valid()
      ensures sent == old(Submission())
      ensures sent.Some? && succeeded ==>
        && currentTemplate == None && templateName == "" && category == "general" && tags == ""
        && imageFile == None && imagePreview == None && zones == []
      ensures !(sent.Some? && succeeded) ==>
        && currentTemplate == old(currentTemplate) && templateName == old(templateName)
        && category == old(category) && tags == old(tags) && imageFile == old(imageFile)
        && imagePreview == old(imagePreview) && zones == old(zones)
    {
      sent := Submission();
      if sent.Some? && succeeded {
        ResetForm();
      }
    }

    /**
     * loadTemplate: the form shows a stored template, its tags joined with
     * ", " and its image served by the API's origin. A picked file stays.
     * Saving straight away is a PUT of that template, which carries its
     * tags back unchanged when they are clean.
     */
    method LoadTemplate(t: Record)
      requires Valid() && ValidTemplate(t.template)
      modifies this`currentTemplate, this`templateName, this`category, this`tags,
               this`zones, this`imagePreview
      ensures Valid()
      ensures currentTemplate == Some(t) && templateName == t.template.name
      ensures category == if t.template.category == "" then "general" else t.template.category
      ensures tags == Join(t.template.tags, ", ") && zones == t.template.zones
      ensures imagePreview == Some(ServerOrigin + t.template.imageUrl)
      ensures Submission().Some? <==> |t.template.zones| > 0
      ensures Submission().Some? ==> Submission().value.verb == Put(t.id)
      ensures Submission().Some? && (forall i :: 0 <= i < |t.template.tags| ==> CleanTag(t.template.tags[i])) ==>
        Submission().value.tags == t.template.tags
    {
      LoadedSubmission(t, imageFile);
      currentTemplate := Some(t);
      templateName := t.template.name;
      category := if t.template.category == "" then "general" else t.template.category;
      tags := Join(t.template.tags, ", ");
      zones := t.template.zones;
      imagePreview := Some(ServerOrigin + t.template.imageUrl);
    }

    /** deleteZone: the zone at `idx` is removed, the others keep their order and their zIndex. */
    method DeleteZone(idx: int)
      requires Valid()
      modifies this`zones
      ensures Valid() && zones == WithoutZone(old(zones), idx)
    {
      zones := WithoutZone(zones, idx);
      assert forall i :: 0 <= i < |zones| ==> zones[i] in old(zones);
    }

    /** updateZoneProperty: one property of the zone at `idx` takes the input's value. */
    method UpdateZoneProperty(idx: int, p: ZoneProperty)
      requires Valid() && Offered(p)
      modifies this`zones
      ensures Valid() && zones == WithZoneProperty(old(zones), idx, p)
    {
      if 0 <= idx < |zones| {
        SetPropertyKeepsValid(zones[idx], p);
      }
      zones := WithZoneProperty(zones, idx, p);
    }
  }
}
