/**
 * The write side of the server: the create, update, delete, replace-zones and
 * use handlers, each as a method over two stores that can fail independently,
 * the record collection (MongoDB) and the blob set (Cloudinary public ids).
 * Every store call takes a flag saying whether it fails and appends one event
 * to `log`, so the order of the calls and the compensating actions are facts
 * about the log.
 */
module TemplateStore {
  import opened Wrappers
  import opened Text
  import opened Schema

  /** What the upload middleware leaves in `req.file`: the delivery URL (`path`) and the public id (`filename`). */
  datatype UploadedFile = UploadedFile(path: string, filename: string)

  /**
   * A multipart text field: not sent, or sent as `raw` text together with what
   * decoding it yields (`JSON.parse` for zones and tags, `parseInt` for width
   * and height): `None` when decoding throws or gives NaN.
   */
  datatype FormField<T> = Missing | Sent(raw: string, decoded: Option<T>)

  /** JavaScript truthiness of the raw field: sent and not the empty string. */
  predicate Truthy<T>(f: FormField<T>) {
    f.Sent? && f.raw != ""
  }

  /** The body of a create or update request (`""` stands for a missing name or category). */
  datatype Form = Form(
    name: string,
    category: string,
    width: FormField<int>,
    height: FormField<int>,
    zones: FormField<seq<ZoneDoc>>,
    tags: FormField<seq<string>>)

  /** Which store calls of one request fail: upload, lookup, write (save/deleteOne/increment), destroy. */
  datatype Faults = Faults(upload: bool, find: bool, write: bool, destroy: bool)

  datatype Failure =
    | NoImageUploaded   // 400
    | NotFound          // 404
    | UploadFailed      // 500, raised by the upload middleware
    | LookupFailed      // 500
    | ParseFailed       // 500, JSON.parse of zones or tags threw
    | ValidationFailed  // 500, mongoose validation refused the document
    | WriteFailed       // 500

  datatype Response = Ok(status: int, data: Option<Template>) | Error(status: int, error: Failure)

  datatype Event = Upload(key: string) | Destroy(key: string) | Save(id: Id) | Remove(id: Id) | Increment(id: Id)

  /** `parseInt(v) || null`: a value only when parsing gives a non-zero number. */
  function CreateDim(f: FormField<int>): (d: Dim)
    ensures d != NotANumber
    ensures d.Px? <==> f.Sent? && f.decoded.Some? && f.decoded.value != 0
    ensures d.Px? ==> d.n == f.decoded.value
  {
    if f.Sent? && f.decoded.Some? && f.decoded.value != 0 then Px(f.decoded.value) else Unset
  }

  /** `(typeof v === "string" ? JSON.parse(v) : v) || []`. */
  function CreateList<T>(f: FormField<seq<T>>): (r: Result<seq<T>, Failure>)
    ensures r.Failure? <==> f.Sent? && f.decoded.None?
    ensures r.Failure? ==> r.error == ParseFailed
    ensures f.Missing? ==> r == Success([])
    ensures f.Sent? && f.decoded.Some? ==> r == Success(f.decoded.value)
  {
    match f
    case Missing => Success([])
    case Sent(_, None) => Failure(ParseFailed)
    case Sent(_, Some(v)) => Success(v)
  }

  /** The document the create handler builds from the uploaded file and the form. */
  function NewTemplate(file: UploadedFile, form: Form, now: nat): (r: Result<Template, Failure>)
    ensures r.Failure? <==> CreateList(form.zones).Failure? || CreateList(form.tags).Failure?
    ensures r.Failure? ==> r.error == ParseFailed
    ensures r.Success? ==>
      var t := r.value;
      && t.imageUrl == file.path
      && t.imageFilename == file.filename && t.cloudinaryPublicId == file.filename
      && t.name == Trim(form.name)
      && t.zones == ZonesWithDefaults(CreateList(form.zones).value)
      && t.tags == CreateList(form.tags).value
      && t.category == (if form.category == "" then "general" else form.category)
      && t.width == CreateDim(form.width) && t.height == CreateDim(form.height)
      && t.usageCount == 0 && t.createdAt == now
  {
    var zones := CreateList(form.zones);
    if zones.Failure? then Failure(ParseFailed)
    else
      var tags := CreateList(form.tags);
      if tags.Failure? then Failure(ParseFailed)
      else Success(Template(
        Trim(form.name), file.path, file.filename, file.filename,
        CreateDim(form.width), CreateDim(form.height),
        ZonesWithDefaults(zones.value), tags.value,
        if form.category == "" then "general" else form.category,
        0, now))
  }

  /** A created template has no zones or tags unless the form sends them, and is in category "general" unless told otherwise. */
  lemma CreateDefaults(file: UploadedFile, name: string, width: FormField<int>, height: FormField<int>, now: nat)
    ensures NewTemplate(file, Form(name, "", width, height, Missing, Missing), now).Success?
    ensures var t := NewTemplate(file, Form(name, "", width, height, Missing, Missing), now).value;
      t.zones == [] && t.tags == [] && t.category == "general" && t.usageCount == 0
  {
  }

  /** `if (v) doc.path = parseInt(v)`. */
  function PatchDim(d: Dim, f: FormField<int>): Dim {
    if !Truthy(f) then d
    else if f.decoded.Some? then Px(f.decoded.value)
    else NotANumber
  }

  /** `if (v) doc.path = typeof v === "string" ? JSON.parse(v) : v`. */
  function PatchList<T>(cur: seq<T>, f: FormField<seq<T>>): Result<seq<T>, Failure> {
    if !Truthy(f) then Success(cur)
    else if f.decoded.None? then Failure(ParseFailed)
    else Success(f.decoded.value)
  }

  /**
   * The update handler's field assignments: name, category, width, height,
   * zones and tags change only when the form's value is truthy.
   */
  function Patch(t: Template, form: Form): (r: Result<Template, Failure>)
    ensures r.Failure? <==>
      (Truthy(form.zones) && form.zones.decoded.None?) || (Truthy(form.tags) && form.tags.decoded.None?)
    ensures r.Failure? ==> r.error == ParseFailed
    ensures r.Success? ==>
      var u := r.value;
      && u.imageUrl == t.imageUrl && u.imageFilename == t.imageFilename
      && u.cloudinaryPublicId == t.cloudinaryPublicId
      && u.usageCount == t.usageCount && u.createdAt == t.createdAt
      && (form.name == "" ==> u.name == t.name)
      && (form.category == "" ==> u.category == t.category)
      && (!Truthy(form.width) ==> u.width == t.width)
      && (!Truthy(form.height) ==> u.height == t.height)
      && (!Truthy(form.zones) ==> u.zones == t.zones)
      && (!Truthy(form.tags) ==> u.tags == t.tags)
    ensures r.Success? ==>
      var u := r.value;
      && (form.name != "" ==> u.name == Trim(form.name))
      && (form.category != "" ==> u.category == form.category)
      && (Truthy(form.width) ==> u.width == if form.width.decoded.Some? then Px(form.width.decoded.value) else NotANumber)
      && (Truthy(form.height) ==> u.height == if form.height.decoded.Some? then Px(form.height.decoded.value) else NotANumber)
      && (Truthy(form.zones) ==> u.zones == ZonesWithDefaults(form.zones.decoded.value))
      && (Truthy(form.tags) ==> u.tags == form.tags.decoded.value)
  {
    var zones := PatchList(t.zones, form.zones);
    if zones.Failure? then Failure(ParseFailed)
    else
      var tags := PatchList(t.tags, form.tags);
      if tags.Failure? then Failure(ParseFailed)
      else Success(t.(
        name := if form.name != "" then Trim(form.name) else t.name,
        category := if form.category != "" then form.category else t.category,
        width := PatchDim(t.width, form.width),
        height := PatchDim(t.height, form.height),
        zones := if Truthy(form.zones) then ZonesWithDefaults(zones.value) else t.zones,
        tags := tags.value))
  }

  /** An update whose form supplies nothing leaves the document as it is. */
  lemma PatchNothing(t: Template, width: FormField<int>, height: FormField<int>, zones: FormField<seq<ZoneDoc>>, tags: FormField<seq<string>>)
    requires !Truthy(width) && !Truthy(height) && !Truthy(zones) && !Truthy(tags)
    ensures Patch(t, Form("", "", width, height, zones, tags)) == Success(t)
  {
  }

  /** Sending the same update twice gives the same document as sending it once. */
  lemma PatchIdempotent(t: Template, form: Form)
    requires Patch(t, form).Success?
    ensures Patch(Patch(t, form).value, form) == Patch(t, form)
  {
    var once := Patch(t, form).value;
    TrimOfTrimmed(Trim(form.name));
  }

  /** The image fields after a replacement upload. */
  function SwapImage(t: Template, file: UploadedFile): (u: Template)
    ensures u.imageUrl == file.path && u.imageFilename == file.filename && u.cloudinaryPublicId == file.filename
    ensures u.(imageUrl := t.imageUrl, imageFilename := t.imageFilename, cloudinaryPublicId := t.cloudinaryPublicId) == t
  {
    t.(imageUrl := file.path, imageFilename := file.filename, cloudinaryPublicId := file.filename)
  }

  /** What `save()` reports: a validation error first, then a failing write. */
  function SaveError(t: Template, fails: bool): (e: Option<Failure>)
    ensures e.None? <==> ValidTemplate(t) && !fails
    ensures e.Some? ==> e.value == (if ValidTemplate(t) then WriteFailed else ValidationFailed)
  {
    if !ValidTemplate(t) then Some(ValidationFailed)
    else if fails then Some(WriteFailed)
    else None
  }

  /** The error that ends a create once the upload succeeded, if any. */
  function CreateError(draft: Result<Template, Failure>, fails: bool): Option<Failure> {
    if draft.Failure? then Some(draft.error) else SaveError(draft.value, fails)
  }

  /** The log after the upload middleware: one Upload event when a file came. */
  function AfterUploadLog(log: seq<Event>, file: Option<UploadedFile>): seq<Event> {
    if file.Some? then log + [Upload(file.value.filename)] else log
  }

  /** The images after a successful run of the upload middleware. */
  function AfterUpload(blobs: set<string>, file: Option<UploadedFile>): set<string> {
    if file.Some? then blobs + {file.value.filename} else blobs
  }

  predicate Distinct(s: seq<Id>) {
    forall i, j :: 0 <= i < j < |s| ==> s[i] != s[j]
  }

  /** The collection's natural order with one document removed. */
  function Without(s: seq<Id>, x: Id): (r: seq<Id>)
    ensures forall y :: y in r <==> y in s && y != x
    ensures Distinct(s) ==> Distinct(r)
  {
    if s == [] then []
    else if s[0] == x then Without(s[1..], x)
    else
      var rest := Without(s[1..], x);
      assert Distinct(s) ==> s[0] !in s[1..];
      [s[0]] + rest
  }

  /** The documents named by `ids`, in that order. */
  function InOrder(ids: seq<Id>, m: map<Id, Template>): (c: seq<Record>)
    requires forall i :: 0 <= i < |ids| ==> ids[i] in m
    ensures |c| == |ids|
    ensures forall i :: 0 <= i < |c| ==> c[i].id == ids[i] && c[i].template == m[ids[i]]
  {
    seq(|ids|, i requires 0 <= i < |ids| => Record(ids[i], m[ids[i]]))
  }

  /**
   * Every stored document passed validation, `order` lists exactly the
   * stored ids once each, and no two documents share an image.
   */
  ghost predicate WellFormed(records: map<Id, Template>, order: seq<Id>) {
    && (forall id :: id in records ==> ValidTemplate(records[id]))
    && (forall id :: id in records <==> id in order)
    && Distinct(order)
    && (forall a, b :: a in records && b in records && a != b ==>
          records[a].cloudinaryPublicId != records[b].cloudinaryPublicId)
  }

  ghost predicate ReferencedIn(records: map<Id, Template>, key: string) {
    exists id :: id in records && records[id].cloudinaryPublicId == key
  }

  /** Every document points at an image that still exists. */
  ghost predicate BackedBy(records: map<Id, Template>, blobs: set<string>) {
    forall id :: id in records ==> records[id].cloudinaryPublicId in blobs
  }

  class Store {
    /** The collection: `_id` to document. */
    var records: map<Id, Template>
    /** The collection's natural order (insertion order), which an unsorted `findOne().skip(n)` follows. */
    var order: seq<Id>
    /** Public ids of the images Cloudinary currently holds. */
    var blobs: set<string>
    /** Every store call made, in order. */
    var log: seq<Event>

    /**
     * Every stored document passed validation, `order` lists exactly the
     * stored ids once each, and no two documents share an image.
     */
    ghost predicate Valid()
      reads this
    {
      WellFormed(records, order)
    }

    ghost predicate Referenced(key: string)
      reads this
    {
      ReferencedIn(records, key)
    }

    /** A public id no image and no document has used: Cloudinary's public ids are unique. */
    ghost predicate Fresh(key: string)
      reads this
    {
      key !in blobs && !Referenced(key)
    }

    /** Every document points at an image that still exists. */
    ghost predicate Backed()
      reads this
    {
      BackedBy(records, blobs)
    }

    /** Images no document points at. */
    ghost function Orphans(): set<string>
      reads this
    {
      set key | key in blobs && !Referenced(key)
    }

    /** The documents in natural order. */
    function Collection(): (c: seq<Record>)
      reads this
      requires Valid()
      ensures |c| == |records|
      ensures forall i :: 0 <= i < |c| ==> c[i].id in records && c[i].template == records[c[i].id]
      ensures forall id :: id in records ==> exists i :: 0 <= i < |c| && c[i].id == id
    {
      DistinctCount(order, records);
      InOrder(order, records)
    }

    /** An empty collection and an empty image store. */
    constructor ()
      ensures Valid() && Backed()
      ensures records == map[] && order == [] && blobs == {} && log == []
    {
      records, order, blobs, log := map[], [], {}, [];
    }

    // ---- the store calls ----

    /** Cloudinary upload of a new image under `key`. */
    method UploadBlob(key: string, fails: bool) returns (ok: bool)
      modifies this`blobs, this`log
      ensures ok == !fails
      ensures blobs == if ok then old(blobs) + {key} else old(blobs)
      ensures log == old(log) + [Upload(key)]
    {
      log := log + [Upload(key)];
      ok := !fails;
      if ok {
        blobs := blobs + {key};
      }
    }

    /** `cloudinary.uploader.destroy(key)`; destroying a missing key is not an error. */
    method DestroyBlob(key: string, fails: bool) returns (ok: bool)
      modifies this`blobs, this`log
      ensures ok == !fails
      ensures blobs == if ok then old(blobs) - {key} else old(blobs)
      ensures log == old(log) + [Destroy(key)]
    {
      log := log + [Destroy(key)];
      ok := !fails;
      if ok {
        blobs := blobs - {key};
      }
    }

    /** `findById(id)`: a read, so it leaves no event. */
    method FindById(id: Id, fails: bool) returns (r: Result<Option<Template>, Failure>)
      ensures fails ==> r == Failure(LookupFailed)
      ensures !fails && id in records ==> r == Success(Some(records[id]))
      ensures !fails && id !in records ==> r == Success(None)
    {
      if fails {
        return Failure(LookupFailed);
      }
      r := Success(if id in records then Some(records[id]) else None);
    }

    /** `doc.save()`: validation, then an insert or a replace. */
    method SaveRecord(id: Id, t: Template, fails: bool) returns (err: Option<Failure>)
      modifies this`records, this`order, this`log
      ensures err == SaveError(t, fails)
      ensures log == old(log) + [Save(id)]
      ensures err.None? ==> records == old(records)[id := t]
      ensures err.None? ==> order == if id in old(order) then old(order) else old(order) + [id]
      ensures err.Some? ==> records == old(records) && order == old(order)
    {
      log := log + [Save(id)];
      err := SaveError(t, fails);
      if err.None? {
        records := records[id := t];
        if id !in order {
          order := order + [id];
        }
      }
    }

    /** `doc.deleteOne()`. */
    method RemoveRecord(id: Id, fails: bool) returns (ok: bool)
      modifies this`records, this`order, this`log
      ensures ok == !fails
      ensures log == old(log) + [Remove(id)]
      ensures ok ==> records == old(records) - {id} && order == Without(old(order), id)
      ensures !ok ==> records == old(records) && order == old(order)
    {
      log := log + [Remove(id)];
      ok := !fails;
      if ok {
        records := records - {id};
        order := Without(order, id);
      }
    }

    /** `findByIdAndUpdate(id, {$inc: {usageCount: 1}})`: one atomic call, no validation. */
    method IncrementUsage(id: Id, fails: bool) returns (r: Result<Option<Template>, Failure>)
      modifies this`records, this`log
      ensures log == old(log) + [Increment(id)]
      ensures fails ==> r == Failure(WriteFailed) && records == old(records)
      ensures !fails && id !in old(records) ==> r == Success(None) && records == old(records)
      ensures !fails && id in old(records) ==>
        var t := old(records)[id].(usageCount := old(records)[id].usageCount + 1);
        r == Success(Some(t)) && records == old(records)[id := t]
    {
      log := log + [Increment(id)];
      if fails {
        return Failure(WriteFailed);
      }
      if id !in records {
        return Success(None);
      }
      var t := records[id].(usageCount := records[id].usageCount + 1);
      records := records[id := t];
      r := Success(Some(t));
    }

    // ---- the handlers ----

    /**
     * POST /api/templates. The middleware uploads the image before the
     * handler runs; the handler then builds and saves the document, and on
     * any error destroys the uploaded image and answers 500 with the original
     * error, whatever the destroy does.
     */
    method Create(file: Option<UploadedFile>, form: Form, id: Id, now: nat, f: Faults) returns (res: Response)
      requires Valid()
      requires id !in records
      requires file.Some? ==> Fresh(file.value.filename)
      modifies this
      ensures Valid()
      ensures file.None? ==>
        && res == Error(400, NoImageUploaded)
        && records == old(records) && order == old(order) && blobs == old(blobs) && log == old(log)
      ensures file.Some? && f.upload ==>
        && res == Error(500, UploadFailed)
        && records == old(records) && order == old(order) && blobs == old(blobs)
        && log == old(log) + [Upload(file.value.filename)]
      ensures file.Some? && !f.upload ==>
        var key := file.value.filename;
        var draft := NewTemplate(file.value, form, now);
        var err := CreateError(draft, f.write);
        && (err.None? ==>
          && res == Ok(201, Some(draft.value))
          && records == old(records)[id := draft.value] && order == old(order) + [id]
          && blobs == old(blobs) + {key}
          && log == old(log) + [Upload(key), Save(id)])
        && (err.Some? ==>
          && res == Error(500, err.value)
          && records == old(records) && order == old(order)
          && blobs == (if key != "" && !f.destroy then old(blobs) else old(blobs) + {key})
          && log == old(log) + [Upload(key)] + (if draft.Success? then [Save(id)] else [])
                    + (if key != "" then [Destroy(key)] else []))
      ensures old(Backed()) ==> Backed()
      // A failed create leaves its image behind only when the compensating destroy fails.
      ensures file.Some? && !f.upload && res.Error? ==>
        (file.value.filename in Orphans() <==> file.value.filename == "" || f.destroy)
    {
      if file.None? {
        return Error(400, NoImageUploaded);
      }
      var key := file.value.filename;
      var uploaded := UploadBlob(key, f.upload);
      if !uploaded {
        return Error(500, UploadFailed);
      }
      var draft := NewTemplate(file.value, form, now);
      var err: Failure;
      if draft.Success? {
        if ValidTemplate(draft.value) {
          InsertKeepsWellFormed(records, order, blobs, id, draft.value);
        }
        var saveErr := SaveRecord(id, draft.value, f.write);
        if saveErr.None? {
          assert log == old(log) + [Upload(key)] + [Save(id)];
          res := Ok(201, Some(draft.value));
          return;
        }
        err := saveErr.value;
      } else {
        err := draft.error;
      }
      ghost var saved := if draft.Success? then [Save(id)] else [];
      assert log == old(log) + [Upload(key)] + saved;
      if key != "" {
        var destroyed := DestroyBlob(key, f.destroy);
      } else {
        assert log == old(log) + [Upload(key)] + saved + [];
      }
      res := Error(500, err);
    }

    /**
     * PUT /api/templates/:id. The middleware uploads a replacement image
     * first; the handler loads the document, applies the form, and when an
     * image came destroys the OLD image before saving the document with the
     * new one. An error after the upload leaves the new image in place.
     */
    method Update(id: Id, file: Option<UploadedFile>, form: Form, f: Faults) returns (res: Response)
      requires Valid()
      requires file.Some? ==> Fresh(file.value.filename)
      modifies this
      ensures Valid()
      ensures file.Some? && f.upload ==>
        && res == Error(500, UploadFailed)
        && records == old(records) && order == old(order) && blobs == old(blobs)
        && log == old(log) + [Upload(file.value.filename)]
      ensures !(file.Some? && f.upload) && (f.find || id !in old(records)) ==>
        && res == (if f.find then Error(500, LookupFailed) else Error(404, NotFound))
        && records == old(records) && order == old(order)
        && blobs == AfterUpload(old(blobs), file)
        && log == AfterUploadLog(old(log), file)
      ensures !(file.Some? && f.upload) && !f.find && id in old(records) ==>
        var current := old(records)[id];
        var patched := Patch(current, form);
        if patched.Failure? then
          && res == Error(500, ParseFailed)
          && records == old(records) && order == old(order)
          && blobs == AfterUpload(old(blobs), file)
          && log == AfterUploadLog(old(log), file)
        else
          var t := if file.Some? then SwapImage(patched.value, file.value) else patched.value;
          var oldKey := current.cloudinaryPublicId;
          var destroys := file.Some? && oldKey != "";
          var uploaded := AfterUpload(old(blobs), file);
          && log == AfterUploadLog(old(log), file) + (if destroys then [Destroy(oldKey)] else []) + [Save(id)]
          && blobs == (if destroys && !f.destroy then uploaded - {oldKey} else uploaded)
          && order == old(order)
          && (SaveError(t, f.write).None? ==> res == Ok(200, Some(t)) && records == old(records)[id := t])
          && (SaveError(t, f.write).Some? ==> res == Error(500, SaveError(t, f.write).value) && records == old(records))
      // The failure window of the destroy-before-save order: a failed save
      // leaves the document pointing at the destroyed image and the new image
      // referenced by nothing.
      ensures file.Some? && !f.upload && !f.find && id in old(records)
              && Patch(old(records)[id], form).Success? && !f.destroy && res.Error? ==>
        var oldKey := old(records)[id].cloudinaryPublicId;
        && records == old(records)
        && records[id].cloudinaryPublicId == oldKey && oldKey !in blobs
        && file.value.filename in Orphans()
        && !Backed()
      ensures old(Backed()) && res.Ok? ==> Backed()
    {
      if file.Some? {
        var uploaded := UploadBlob(file.value.filename, f.upload);
        if !uploaded {
          return Error(500, UploadFailed);
        }
      }
      var found := FindById(id, f.find);
      if found.Failure? {
        return Error(500, found.error);
      }
      if found.value.None? {
        return Error(404, NotFound);
      }
      var current := found.value.value;
      var patched := Patch(current, form);
      if patched.Failure? {
        return Error(500, patched.error);
      }
      res := SwapAndSave(id, current, patched.value, file, f);
    }

    /**
     * The end of the update handler, once the document is loaded and patched:
     * with a new image, destroy the old one (swallowing a failure) and point
     * the document at the new one; then save.
     */
    method SwapAndSave(id: Id, current: Template, patched: Template, file: Option<UploadedFile>, f: Faults)
      returns (res: Response)
      requires Valid() && id in records && records[id] == current
      requires patched.cloudinaryPublicId == current.cloudinaryPublicId
      requires file.Some? ==> !Referenced(file.value.filename)
      modifies this`records, this`order, this`blobs, this`log
      ensures Valid()
      ensures
        var t := if file.Some? then SwapImage(patched, file.value) else patched;
        var oldKey := current.cloudinaryPublicId;
        var destroys := file.Some? && oldKey != "";
        && log == old(log) + (if destroys then [Destroy(oldKey)] else []) + [Save(id)]
        && blobs == (if destroys && !f.destroy then old(blobs) - {oldKey} else old(blobs))
        && order == old(order)
        && (SaveError(t, f.write).None? ==> res == Ok(200, Some(t)) && records == old(records)[id := t])
        && (SaveError(t, f.write).Some? ==> res == Error(500, SaveError(t, f.write).value) && records == old(records))
      ensures old(Backed()) && res.Ok? && (file.Some? ==> file.value.filename in old(blobs)) ==> Backed()
    {
      var t := patched;
      if file.Some? {
        if current.cloudinaryPublicId != "" {
          var destroyed := DestroyBlob(current.cloudinaryPublicId, f.destroy);
        }
        t := SwapImage(t, file.value);
      } else {
        assert log == old(log) + [];
      }
      if ValidTemplate(t) {
        ReplaceKeepsWellFormed(records, order, id, t);
      }
      var err := SaveRecord(id, t, f.write);
      if err.Some? {
        return Error(500, err.value);
      }
      res := Ok(200, Some(t));
    }

    /**
     * DELETE /api/templates/:id. The image is destroyed first, a failure of
     * that is swallowed, and the document is removed either way.
     */
    method Delete(id: Id, f: Faults) returns (res: Response)
      requires Valid()
      modifies this
      ensures Valid()
      ensures f.find || id !in old(records) ==>
        && res == (if f.find then Error(500, LookupFailed) else Error(404, NotFound))
        && records == old(records) && order == old(order) && blobs == old(blobs) && log == old(log)
      ensures !f.find && id in old(records) ==>
        var key := old(records)[id].cloudinaryPublicId;
        && log == old(log) + (if key != "" then [Destroy(key)] else []) + [Remove(id)]
        && blobs == (if key != "" && !f.destroy then old(blobs) - {key} else old(blobs))
        && (!f.write ==> res == Ok(200, None) && records == old(records) - {id} && order == Without(old(order), id))
        && (f.write ==> res == Error(500, WriteFailed) && records == old(records) && order == old(order))
      ensures old(Backed()) && res.Ok? ==> Backed()
      // A successful delete leaves the image behind only when its destroy failed.
      ensures old(Backed()) && res.Ok? ==> (old(records)[id].cloudinaryPublicId in Orphans() <==> f.destroy)
      // A failed deleteOne after a successful destroy leaves the document pointing at nothing.
      ensures !f.find && id in old(records) && !f.destroy && f.write ==>
        records == old(records) && records[id].cloudinaryPublicId !in blobs && !Backed()
    {
      var found := FindById(id, f.find);
      if found.Failure? {
        return Error(500, found.error);
      }
      if found.value.None? {
        return Error(404, NotFound);
      }
      var t := found.value.value;
      if t.cloudinaryPublicId != "" {
        var destroyed := DestroyBlob(t.cloudinaryPublicId, f.destroy);
      }
      RemoveKeepsWellFormed(records, order, old(blobs), id);
      var removed := RemoveRecord(id, f.write);
      if !removed {
        return Error(500, WriteFailed);
      }
      res := Ok(200, None);
    }

    /** POST /api/templates/:id/zones: the zone list is replaced and the document saved. */
    method ReplaceZones(id: Id, zones: seq<ZoneDoc>, f: Faults) returns (res: Response)
      requires Valid()
      modifies this`records, this`order, this`log
      ensures Valid()
      ensures f.find || id !in old(records) ==>
        && res == (if f.find then Error(500, LookupFailed) else Error(404, NotFound))
        && records == old(records) && order == old(order) && log == old(log)
      ensures !f.find && id in old(records) ==>
        var t := old(records)[id].(zones := ZonesWithDefaults(zones));
        && log == old(log) + [Save(id)]
        && order == old(order)
        && (SaveError(t, f.write).None? ==> res == Ok(200, Some(t)) && records == old(records)[id := t])
        && (SaveError(t, f.write).Some? ==> res == Error(500, SaveError(t, f.write).value) && records == old(records))
    {
      var found := FindById(id, f.find);
      if found.Failure? {
        return Error(500, found.error);
      }
      if found.value.None? {
        return Error(404, NotFound);
      }
      var t := found.value.value.(zones := ZonesWithDefaults(zones));
      if ValidTemplate(t) {
        ReplaceKeepsWellFormed(records, order, id, t);
      }
      var err := SaveRecord(id, t, f.write);
      if err.Some? {
        return Error(500, err.value);
      }
      res := Ok(200, Some(t));
    }

    /** POST /api/templates/:id/use: usageCount goes up by exactly one and nothing else changes. */
    method Use(id: Id, f: Faults) returns (res: Response)
      requires Valid()
      modifies this`records, this`log
      ensures Valid()
      ensures log == old(log) + [Increment(id)]
      ensures f.write ==> res == Error(500, WriteFailed) && records == old(records)
      ensures !f.write && id !in old(records) ==> res == Error(404, NotFound) && records == old(records)
      ensures !f.write && id in old(records) ==>
        var t := old(records)[id].(usageCount := old(records)[id].usageCount + 1);
        res == Ok(200, Some(t)) && records == old(records)[id := t]
    {
      var r := IncrementUsage(id, f.write);
      if r.Failure? {
        return Error(500, r.error);
      }
      if r.value.None? {
        return Error(404, NotFound);
      }
      ReplaceKeepsWellFormed(old(records), order, id, r.value.value);
      res := Ok(200, r.value);
    }
  }

  // ---- lemmas behind the invariant ----

  lemma DistinctCount(ids: seq<Id>, m: map<Id, Template>)
    requires Distinct(ids)
    requires forall id :: id in m <==> id in ids
    ensures |ids| == |m|
  {
    var s := set i | 0 <= i < |ids| :: ids[i];
    assert s == m.Keys;
    DistinctCardinality(ids);
  }

  lemma {:induction false} DistinctCardinality(ids: seq<Id>)
    requires Distinct(ids)
    ensures |set i | 0 <= i < |ids| :: ids[i]| == |ids|
  {
    if ids != [] {
      var last := |ids| - 1;
      DistinctCardinality(ids[..last]);
      var front := set i | 0 <= i < last :: ids[..last][i];
      assert (set i | 0 <= i < |ids| :: ids[i]) == front + {ids[last]};
      assert ids[last] !in front;
    }
  }

  /** Inserting a valid document with a fresh id and an unused image keeps the collection well formed and backed. */
  lemma InsertKeepsWellFormed(records: map<Id, Template>, order: seq<Id>, blobs: set<string>, id: Id, t: Template)
    requires WellFormed(records, order)
    requires id !in records && ValidTemplate(t) && !ReferencedIn(records, t.cloudinaryPublicId)
    ensures WellFormed(records[id := t], order + [id])
    ensures BackedBy(records, blobs) && t.cloudinaryPublicId in blobs ==> BackedBy(records[id := t], blobs)
  {
    var o := order + [id];
    forall i, j | 0 <= i < j < |o| ensures o[i] != o[j] {
      if j == |order| {
        assert o[i] == order[i] && order[i] in order;
      }
    }
  }

  /** Replacing a document by a valid one that keeps its image, or takes an unused one, keeps the collection well formed. */
  lemma ReplaceKeepsWellFormed(records: map<Id, Template>, order: seq<Id>, id: Id, t: Template)
    requires WellFormed(records, order)
    requires id in records && ValidTemplate(t)
    requires t.cloudinaryPublicId == records[id].cloudinaryPublicId || !ReferencedIn(records, t.cloudinaryPublicId)
    ensures WellFormed(records[id := t], order)
  {
  }

  /** Removing a document keeps the collection well formed, and backed when the image destroyed was that document's. */
  lemma RemoveKeepsWellFormed(records: map<Id, Template>, order: seq<Id>, blobs: set<string>, id: Id)
    requires WellFormed(records, order) && id in records
    ensures WellFormed(records - {id}, Without(order, id))
    ensures BackedBy(records, blobs) ==> BackedBy(records - {id}, blobs - {records[id].cloudinaryPublicId})
  {
  }
}
