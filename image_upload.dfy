/** The server function that receives one listing image: it answers the browser's
    preflight, authenticates the caller, checks the form fields, stores the file under a
    path namespaced by user and listing, and records the image's public address and
    position against the listing. */
module ImageUpload {
  import opened Wrappers
  import opened Text
  import CreateListing

  /** What the function reads from a request: its method and the three form fields (absent
      fields are None). The file's bytes and content type are not modelled. */
  datatype Request = Request(verb: string, image: Option<CreateListing.File>, listingId: Option<string>, position: Option<string>)

  /** The body of a response: the preflight's plain "ok", an error object or the image's address. */
  datatype Body = PlainOk | ErrorBody(error: string) | UrlBody(imageUrl: string)

  /** A response: its status and body; every response carries the cross-origin headers, and
      all but the preflight's are JSON. */
  datatype Response = Response(status: nat, body: Body, json: bool)

  /** The row recorded for an uploaded image. `position` is None where `parseInt` gives NaN. */
  datatype ImageRow = ImageRow(listingId: string, imageUrl: string, position: Option<int>)

  const Unauthorized: Response := Response(401, ErrorBody("Unauthorized"), true)
  const MissingFields: Response := Response(400, ErrorBody("Missing required fields"), true)

  /** `!file || !listingId || !position`: a field absent, or a text field empty. */
  predicate MissingField(req: Request)
  {
    req.image.None? || req.listingId.None? || req.listingId == Some("")
    || req.position.None? || req.position == Some("")
  }

  /** The object's path: "<user>/<listing>/<uuid>-<file name>". */
  function FilePath(userId: string, listingId: string, uuid: string, fileName: string): (p: string)
    ensures userId + "/" + listingId + "/" <= p
    ensures |p| == |userId| + |listingId| + |uuid| + |fileName| + 3
    ensures p[|userId| + |listingId| + 2..] == uuid + "-" + fileName
  {
    userId + "/" + listingId + "/" + uuid + "-" + fileName
  }

  /** The public address of an object: the public base, "/", and the object's path. */
  function ImageUrl(publicBase: string, path: string): (u: string)
    ensures publicBase + "/" <= u && u[|publicBase| + 1..] == path
  {
    publicBase + "/" + path
  }

  /** With a user id and a listing id free of "/", a path's first two segments are those ids. */
  lemma FilePathSegments(userId: string, listingId: string, uuid: string, fileName: string)
    requires '/' !in userId && '/' !in listingId
    ensures var parts := Split(FilePath(userId, listingId, uuid, fileName), '/');
      |parts| >= 2 && parts[0] == userId && parts[1] == listingId
  {
    var rest := uuid + "-" + fileName;
    var afterListing := "/" + rest;
    var afterUser := "/" + (listingId + afterListing);
    assert FilePath(userId, listingId, uuid, fileName) == userId + afterUser;
    SplitPrefix(listingId, afterListing, '/');
    assert afterListing[1..] == rest;
    assert Split(afterListing, '/') == [""] + Split(rest, '/');
    assert Split(listingId + afterListing, '/')[0] == listingId;
    SplitPrefix(userId, afterUser, '/');
    assert afterUser[1..] == listingId + afterListing;
    assert Split(afterUser, '/') == [""] + Split(listingId + afterListing, '/');
  }

  /** Paths are namespaced: two uploads that land on the same path come from the same user
      for the same listing, so no user can overwrite another's images. */
  lemma PathsNamespaced(u1: string, l1: string, x1: string, n1: string, u2: string, l2: string, x2: string, n2: string)
    requires '/' !in u1 && '/' !in l1 && '/' !in u2 && '/' !in l2
    requires FilePath(u1, l1, x1, n1) == FilePath(u2, l2, x2, n2)
    ensures u1 == u2 && l1 == l2
  {
    FilePathSegments(u1, l1, x1, n1);
    FilePathSegments(u2, l2, x2, n2);
  }

  /** The request the listing form sends for the file at index `i`. */
  function FromClient(r: CreateListing.UploadRequest): Request
  {
    Request("POST", Some(r.image), Some(r.listingId), Some(r.position))
  }

  /** Every request the listing form builds passes the field check, and the function records
      for it the listing's id and the file's index as position. */
  lemma ClientRequestsAccepted(files: seq<CreateListing.File>, listingId: nat, i: nat)
    requires i < |files|
    ensures var req := FromClient(CreateListing.UploadRequests(files, listingId)[i]);
      && !MissingField(req)
      && ParseInt(req.position.value) == Some(i)
      && ParseInt(req.listingId.value) == Some(listingId)
  {
    CreateListing.UploadRequestsParse(files, listingId);
    var r := CreateListing.UploadRequests(files, listingId)[i];
    assert |NatToString(i)| >= 1 && |NatToString(listingId)| >= 1;
  }

  /** The object store and the image table the function writes to. */
  class Backend {
    var objects: set<string>
    var imageRows: seq<ImageRow>

    constructor (objects: set<string>, imageRows: seq<ImageRow>)
      ensures this.objects == objects && this.imageRows == imageRows
    {
      this.objects := objects;
      this.imageRows := imageRows;
    }

    /** One request. `user` is the authenticated caller (None when authentication fails or
        finds no user), `uuid` the fresh identifier, `putError` and `insertError` the
        messages of a failing store or insert. */
    method Handle(req: Request, user: Option<string>, uuid: string, publicBase: string,
                  putError: Option<string>, insertError: Option<string>) returns (resp: Response)
      modifies this
      ensures req.verb == "OPTIONS" ==> resp == Response(200, PlainOk, false)
      ensures req.verb != "OPTIONS" && user.None? ==> resp == Unauthorized
      ensures req.verb != "OPTIONS" && user.Some? && MissingField(req) ==> resp == MissingFields
      ensures var stored := req.verb != "OPTIONS" && user.Some? && !MissingField(req) && putError.None?;
        && (!stored ==> objects == old(objects) && imageRows == old(imageRows))
        && (req.verb != "OPTIONS" && user.Some? && !MissingField(req) && putError.Some? ==>
              resp == Response(500, ErrorBody(putError.value), true))
        && (stored ==>
              var path := FilePath(user.value, req.listingId.value, uuid, req.image.value.name);
              && objects == old(objects) + {path}
              && (insertError.Some? ==> imageRows == old(imageRows) && resp == Response(500, ErrorBody(insertError.value), true))
              && (insertError.None? ==>
                    imageRows == old(imageRows) + [ImageRow(req.listingId.value, ImageUrl(publicBase, path), ParseInt(req.position.value))]
                    && resp == Response(200, UrlBody(ImageUrl(publicBase, path)), true)))
    {
      if req.verb == "OPTIONS" {
        return Response(200, PlainOk, false);
      }
      if user.None? {
        return Unauthorized;
      }
      if MissingField(req) {
        return MissingFields;
      }
      var filePath := FilePath(user.value, req.listingId.value, uuid, req.image.value.name);
      if putError.Some? {
        return Response(500, ErrorBody(putError.value), true);
      }
      objects := objects + {filePath};
      var imageUrl := ImageUrl(publicBase, filePath);
      if insertError.Some? {
        return Response(500, ErrorBody(insertError.value), true);
      }
      imageRows := imageRows + [ImageRow(req.listingId.value, imageUrl, ParseInt(req.position.value))];
      return Response(200, UrlBody(imageUrl), true);
    }
  }
}
