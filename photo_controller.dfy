/** The outcome logic of the photo endpoints
    (controller/PhotoController.java, with the listing entry of
    model/Photo.java): the listing with its download URLs, and the
    statuses of upload, download and delete. */
module PhotoApi {
  import opened Wrappers
  import opened Http
  import Decimal
  import opened PhotoStore

  const DEFAULT_BASE_URL := "http://localhost:8080"
  const PHOTOS_PATH := "/api/photos/"
  const DOWNLOAD_SUFFIX := "/download"
  const UPLOADED := "Photo uploaded successfully"
  const UPLOAD_FAILED := "Failed to upload photo: "
  const DELETED := "Photo deleted successfully"

  /** The server URL the client passed, or the default one. */
  function BaseUrl(serverUrl: Option<string>): (base: string)
    ensures serverUrl.Some? ==> base == serverUrl.value
    ensures serverUrl.None? ==> base == DEFAULT_BASE_URL
  {
    if serverUrl.Some? then serverUrl.value else DEFAULT_BASE_URL
  }

  /** The download URL of a photo, built from its id only. */
  function DownloadUrl(base: string, id: nat): (url: string)
    ensures |base| + |PHOTOS_PATH| + |DOWNLOAD_SUFFIX| < |url|
    ensures url[..|base| + |PHOTOS_PATH|] == base + PHOTOS_PATH
    ensures url[|url| - |DOWNLOAD_SUFFIX|..] == DOWNLOAD_SUFFIX
    ensures IdText(base, url) == Decimal.Render(id)
    ensures Decimal.Parse(IdText(base, url)) == id
  {
    Decimal.ParseRender(id);
    base + PHOTOS_PATH + Decimal.Render(id) + DOWNLOAD_SUFFIX
  }

  /** The part of a download URL between the photos path and the
      download suffix. */
  function IdText(base: string, url: string): string
    requires |base| + |PHOTOS_PATH| + |DOWNLOAD_SUFFIX| <= |url|
  {
    url[|base| + |PHOTOS_PATH|..|url| - |DOWNLOAD_SUFFIX|]
  }

  /** A listing entry; its thumbnail URL is its URL. */
  function NewPhotoModel(id: nat, name: string, url: string): (m: PhotoModel)
    ensures m.id == id && m.name == name && m.url == url
    ensures m.thumbnailUrl == m.url
  {
    PhotoModel(id, name, url, url)
  }

  /** Different ids have different download URLs under one base URL. */
  lemma DownloadUrlInjective(base: string, a: nat, b: nat)
    ensures DownloadUrl(base, a) == DownloadUrl(base, b) ==> a == b
  {
    var u, v := DownloadUrl(base, a), DownloadUrl(base, b);
    if u == v {
      var start := |base| + |PHOTOS_PATH|;
      assert |Decimal.Render(a)| == |Decimal.Render(b)|;
      var end := start + |Decimal.Render(a)|;
      assert u[start..end] == Decimal.Render(a);
      assert v[start..end] == Decimal.Render(b);
      Decimal.RenderInjective(a, b);
    }
  }

  /** The response to an upload, given what the service answered. */
  function UploadReply(result: UploadResult): (r: Response)
    ensures r.status == OK <==> result.Stored?
    ensures result.Stored? ==> r.body == Uploaded(true, UPLOADED, result.photo.id)
    ensures result.IoFailure? ==>
      r == Response(INTERNAL_SERVER_ERROR, Outcome(false, UPLOAD_FAILED + result.message))
    ensures result.BadFilename? ==> r == Response(INTERNAL_SERVER_ERROR, Unhandled)
  {
    match result
    case Stored(photo) => Response(OK, Uploaded(true, UPLOADED, photo.id))
    case IoFailure(message) => Response(INTERNAL_SERVER_ERROR, Outcome(false, UPLOAD_FAILED + message))
    case BadFilename => Response(INTERNAL_SERVER_ERROR, Unhandled)
  }

  class PhotoController {
    const photoService: PhotoService

    constructor (photoService: PhotoService)
      ensures this.photoService == photoService
    {
      this.photoService := photoService;
    }

    /** Lists every stored photo, in the table's order, with its download
        URL; under the service's invariant no two entries share a URL. */
    method GetAllPhotos(serverUrl: Option<string>) returns (r: Response)
      requires photoService.Valid()
      ensures r.status == OK && r.body.PhotoList?
      ensures |r.body.photos| == |photoService.photos|
      ensures forall i :: 0 <= i < |r.body.photos| ==>
        && r.body.photos[i].id == photoService.photos[i].id
        && r.body.photos[i].name == photoService.photos[i].name
        && r.body.photos[i].url == DownloadUrl(BaseUrl(serverUrl), photoService.photos[i].id)
        && r.body.photos[i].thumbnailUrl == r.body.photos[i].url
      ensures forall i, j :: 0 <= i < j < |r.body.photos| ==> r.body.photos[i].url != r.body.photos[j].url
    {
      var photos := photoService.GetAllPhotos();
      var models: seq<PhotoModel> := [];
      var k := 0;
      while k < |photos|
        invariant 0 <= k <= |photos|
        invariant |models| == k
        invariant forall i :: 0 <= i < k ==>
          && models[i].id == photos[i].id
          && models[i].name == photos[i].name
          && models[i].url == DownloadUrl(BaseUrl(serverUrl), photos[i].id)
          && models[i].thumbnailUrl == models[i].url
      {
        var photo := photos[k];
        var baseUrl := if serverUrl.Some? then serverUrl.value else DEFAULT_BASE_URL;
        var url := baseUrl + PHOTOS_PATH + Decimal.Render(photo.id) + DOWNLOAD_SUFFIX;
        models := models + [NewPhotoModel(photo.id, photo.name, url)];
        k := k + 1;
      }
      forall i, j | 0 <= i < j < |models|
        ensures models[i].url != models[j].url
      {
        DownloadUrlInjective(BaseUrl(serverUrl), photos[i].id, photos[j].id);
      }
      r := Response(OK, PhotoList(models));
    }

    method UploadPhoto(originalFilename: string, token: string, now: int,
                       dirFault: Option<string>, copyFault: Option<string>) returns (r: Response)
      requires photoService.Valid()
      requires |token| == UUID_LENGTH && token !in photoService.usedTokens
      modifies photoService
      ensures photoService.Valid()
      ensures r == UploadReply(UploadAnswer(old(photoService.dirExists), photoService.uploadDir,
                                            old(photoService.nextId), originalFilename, token, now,
                                            dirFault, copyFault))
      ensures var answer := UploadAnswer(old(photoService.dirExists), photoService.uploadDir,
                                         old(photoService.nextId), originalFilename, token, now,
                                         dirFault, copyFault);
        && photoService.photos == (if answer.Stored? then old(photoService.photos) + [answer.photo]
                                   else old(photoService.photos))
        && photoService.files == (if answer.Stored? then old(photoService.files) + {answer.photo.filePath}
                                  else old(photoService.files))
        && photoService.nextId == old(photoService.nextId) + (if answer.Stored? then 1 else 0)
      ensures photoService.dirExists == (old(photoService.dirExists) || dirFault.None?)
      ensures old(photoService.usedTokens) <= photoService.usedTokens <= old(photoService.usedTokens) + {token}
    {
      var result := photoService.UploadPhoto(originalFilename, token, now, dirFault, copyFault);
      match result {
        case Stored(photo) =>
          r := Response(OK, Uploaded(true, UPLOADED, photo.id));
        case IoFailure(message) =>
          r := Response(INTERNAL_SERVER_ERROR, Outcome(false, UPLOAD_FAILED + message));
        case BadFilename =>
          r := Response(INTERNAL_SERVER_ERROR, Unhandled);
      }
    }

    /** Sends a photo's file. `readable` says whether the file, if it
        exists, can be read; `malformedUrl` whether turning its path into
        a URL throws. */
    method DownloadPhoto(id: int, readable: bool, malformedUrl: bool) returns (r: Response)
      requires photoService.Valid()
      ensures (forall p :: p in photoService.photos ==> p.id != id) ==> r == Response(NOT_FOUND, Empty)
      ensures forall photo :: photo in photoService.photos && photo.id == id ==>
        r == if malformedUrl then Response(INTERNAL_SERVER_ERROR, Empty)
             else if photo.filePath in photoService.files && readable
             then Response(OK, Attachment(photo.name, photo.filePath))
             else Response(NOT_FOUND, Empty)
    {
      var found := photoService.GetPhotoById(id);
      if found.None? {
        return Response(NOT_FOUND, Empty);
      }
      var photo := found.value;
      if malformedUrl {
        return Response(INTERNAL_SERVER_ERROR, Empty);
      }
      if photo.filePath in photoService.files && readable {
        r := Response(OK, Attachment(photo.name, photo.filePath));
      } else {
        r := Response(NOT_FOUND, Empty);
      }
    }

    method DeletePhoto(id: int, deleteFault: bool) returns (r: Response)
      requires photoService.Valid()
      modifies photoService
      ensures photoService.Valid()
      ensures r == if FindById(old(photoService.photos), id).Some?
                   then Response(OK, Outcome(true, DELETED))
                   else Response(NOT_FOUND, Empty)
      ensures photoService.photos == RemoveId(old(photoService.photos), id)
      ensures photoService.files ==
        if FindById(old(photoService.photos), id).Some? && !deleteFault
        then old(photoService.files) - {FindById(old(photoService.photos), id).value.filePath}
        else old(photoService.files)
      ensures FilesKept(photoService.photos, old(photoService.files), photoService.files)
      ensures photoService.nextId == old(photoService.nextId)
      ensures photoService.dirExists == old(photoService.dirExists)
      ensures photoService.usedTokens == old(photoService.usedTokens)
    {
      var success := photoService.DeletePhoto(id, deleteFault);
      if success {
        r := Response(OK, Outcome(true, DELETED));
      } else {
        r := Response(NOT_FOUND, Empty);
      }
    }
  }
}
