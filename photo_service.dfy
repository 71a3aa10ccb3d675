/** The photo store (service/PhotoService.java, with the record of
    entity/Photo.java). The photo table is a sequence of records in
    increasing id order together with the id it assigns next; the files
    on disk are a set of paths; the random UUID is a token supplied by
    the caller, fresh and of a UUID's printed length. */
module PhotoStore {
  import opened Wrappers

  /** A stored photo: its id, the client's file name, the path of its
      file and an opaque clock reading. */
  datatype Photo = Photo(id: nat, name: string, filePath: string, uploadedAt: int)

  /** Length of a UUID's printed form (8-4-4-4-12 hex digits). */
  const UUID_LENGTH: nat := 36

  const SEPARATOR: char := '/'

  /** Index of the last occurrence of `c` in `s`, or -1 if there is none. */
  function LastIndexOf(s: string, c: char): (i: int)
    ensures -1 <= i < |s|
    ensures 0 <= i ==> s[i] == c
    ensures forall j :: i < j < |s| ==> s[j] != c
  {
    if s == [] then -1
    else if s[|s| - 1] == c then |s| - 1
    else LastIndexOf(s[..|s| - 1], c)
  }

  /** The extension the service keeps: the suffix of the name from its
      last dot on, dot included. Without a dot the substring call throws,
      which is None here. */
  function Extension(name: string): (r: Option<string>)
    ensures r.None? <==> forall j :: 0 <= j < |name| ==> name[j] != '.'
    ensures r.Some? ==>
      && 1 <= |r.value| <= |name|
      && r.value == name[|name| - |r.value|..]
      && r.value[0] == '.'
      && forall j :: 1 <= j < |r.value| ==> r.value[j] != '.'
  {
    var i := LastIndexOf(name, '.');
    if i < 0 then None else Some(name[i..])
  }

  /** `Path.resolve` followed by `toString`: the directory, a separator and the name. */
  function Resolve(dir: string, name: string): (path: string)
    ensures |path| == |dir| + 1 + |name| && path[|dir| + 1..] == name
  {
    dir + [SEPARATOR] + name
  }

  /** The path a file is stored at: the random token followed by the
      extension, inside the upload directory. */
  function StoredPath(dir: string, token: string, extension: string): (path: string)
    ensures |path| == |dir| + 1 + |token| + |extension|
    ensures path[|dir| + 1..|dir| + 1 + |token|] == token
  {
    Resolve(dir, token + extension)
  }

  /** Tokens of one length decide the stored path: two different tokens
      never give the same path, whatever the extensions. */
  lemma StoredPathInjective(dir: string, t1: string, e1: string, t2: string, e2: string)
    requires |t1| == |t2|
    ensures StoredPath(dir, t1, e1) == StoredPath(dir, t2, e2) ==> t1 == t2
  {
    if StoredPath(dir, t1, e1) == StoredPath(dir, t2, e2) {
      var p1, p2 := StoredPath(dir, t1, e1), StoredPath(dir, t2, e2);
      forall k | 0 <= k < |t1|
        ensures t1[k] == t2[k]
      {
        assert p1[|dir| + 1 + k] == t1[k];
        assert p2[|dir| + 1 + k] == t2[k];
      }
    }
  }

  /** The table's look-up by id. */
  function FindById(photos: seq<Photo>, id: int): (r: Option<Photo>)
    ensures r.Some? ==> r.value in photos && r.value.id == id
    ensures r.None? <==> forall p :: p in photos ==> p.id != id
  {
    if photos == [] then None
    else if photos[0].id == id then Some(photos[0])
    else FindById(photos[1..], id)
  }

  /** The table's deletion by id: every record with another id stays, in order. */
  function RemoveId(photos: seq<Photo>, id: int): (r: seq<Photo>)
    ensures forall p :: p in r <==> p in photos && p.id != id
    ensures |r| <= |photos|
  {
    if photos == [] then []
    else if photos[0].id == id then RemoveId(photos[1..], id)
    else [photos[0]] + RemoveId(photos[1..], id)
  }

  ghost predicate IdsIncreasing(photos: seq<Photo>)
  {
    forall i, j :: 0 <= i < j < |photos| ==> photos[i].id < photos[j].id
  }

  ghost predicate DistinctPaths(photos: seq<Photo>)
  {
    forall i, j :: 0 <= i < j < |photos| ==> photos[i].filePath != photos[j].filePath
  }

  /** Each record's path is the upload directory joined with its own
      token and its name's extension. */
  ghost predicate NamedByTokens(dir: string, photos: seq<Photo>, tokenOf: map<nat, string>)
  {
    forall p :: p in photos ==>
      && p.id in tokenOf
      && |tokenOf[p.id]| == UUID_LENGTH
      && Extension(p.name).Some?
      && p.filePath == StoredPath(dir, tokenOf[p.id], Extension(p.name).value)
  }

  ghost predicate TokensDistinct(tokenOf: map<nat, string>)
  {
    forall a, b :: a in tokenOf && b in tokenOf && a != b ==> tokenOf[a] != tokenOf[b]
  }

  /** Records named by distinct tokens have distinct paths, so no upload
      overwrites another record's file. */
  lemma DistinctStoredPaths(dir: string, photos: seq<Photo>, tokenOf: map<nat, string>)
    requires IdsIncreasing(photos)
    requires NamedByTokens(dir, photos, tokenOf)
    requires TokensDistinct(tokenOf)
    ensures DistinctPaths(photos)
  {
    forall i, j | 0 <= i < j < |photos|
      ensures photos[i].filePath != photos[j].filePath
    {
      var p, q := photos[i], photos[j];
      assert p in photos && q in photos;
      StoredPathInjective(dir, tokenOf[p.id], Extension(p.name).value, tokenOf[q.id], Extension(q.name).value);
    }
  }

  /** Look-up after deleting an id: that id is gone, every other id
      finds what it found before. */
  lemma {:induction false} FindAfterRemove(photos: seq<Photo>, id: int, other: int)
    ensures FindById(RemoveId(photos, id), other) == if other == id then None else FindById(photos, other)
  {
    if photos != [] {
      FindAfterRemove(photos[1..], id, other);
      if photos[0].id != id {
        assert RemoveId(photos, id)[1..] == RemoveId(photos[1..], id);
      }
    }
  }

  /** Deleting an id keeps the remaining records in id order. */
  lemma {:induction false} RemoveKeepsOrder(photos: seq<Photo>, id: int)
    requires IdsIncreasing(photos)
    ensures IdsIncreasing(RemoveId(photos, id))
  {
    if photos != [] {
      RemoveKeepsOrder(photos[1..], id);
      var rest := RemoveId(photos[1..], id);
      if photos[0].id != id {
        forall j | 0 <= j < |rest|
          ensures photos[0].id < rest[j].id
        {
          assert rest[j] in photos[1..];
        }
      }
    }
  }

  /** Deleting an id no record has leaves the table as it was. */
  lemma {:induction false} RemoveAbsent(photos: seq<Photo>, id: int)
    requires FindById(photos, id).None?
    ensures RemoveId(photos, id) == photos
  {
    if photos != [] {
      RemoveAbsent(photos[1..], id);
    }
  }

  /** With increasing ids, a record is exactly what its id finds. */
  lemma FindUnique(photos: seq<Photo>, p: Photo)
    requires IdsIncreasing(photos) && p in photos
    ensures FindById(photos, p.id) == Some(p)
  {
  }

  /** Look-up after saving a record under an unused id: that id finds the
      new record, every other id finds what it found before. */
  lemma {:induction false} FindAfterAppend(photos: seq<Photo>, p: Photo, other: int)
    requires forall q :: q in photos ==> q.id != p.id
    ensures FindById(photos + [p], other) == if other == p.id then Some(p) else FindById(photos, other)
  {
    if photos != [] {
      assert (photos + [p])[1..] == photos[1..] + [p];
      FindAfterAppend(photos[1..], p, other);
    }
  }

  /** The photo service's invariant: ids increase and stay below the next
      id, every token was handed out and names one record only, and each
      record's path is made from its token. */
  ghost predicate Consistent(dir: string, photos: seq<Photo>, nextId: nat,
                             tokenOf: map<nat, string>, usedTokens: set<string>)
  {
    && 1 <= nextId
    && IdsIncreasing(photos)
    && (forall p :: p in photos ==> p.id < nextId)
    && (forall k :: k in tokenOf ==> k < nextId && tokenOf[k] in usedTokens)
    && TokensDistinct(tokenOf)
    && NamedByTokens(dir, photos, tokenOf)
  }

  /** Two records with different ids have different paths. */
  lemma DifferentIdsDifferentPaths(dir: string, photos: seq<Photo>, tokenOf: map<nat, string>, p: Photo, q: Photo)
    requires NamedByTokens(dir, photos, tokenOf) && TokensDistinct(tokenOf)
    requires p in photos && q in photos && p.id != q.id
    ensures p.filePath != q.filePath
  {
    StoredPathInjective(dir, tokenOf[p.id], Extension(p.name).value, tokenOf[q.id], Extension(q.name).value);
  }

  /** A fresh token of a UUID's length gives a path no record has. */
  lemma FreshTokenFreshPath(dir: string, photos: seq<Photo>, nextId: nat, tokenOf: map<nat, string>,
                            usedTokens: set<string>, token: string, extension: string)
    requires Consistent(dir, photos, nextId, tokenOf, usedTokens)
    requires |token| == UUID_LENGTH && token !in usedTokens
    ensures forall q :: q in photos ==> q.filePath != StoredPath(dir, token, extension)
  {
    forall q | q in photos
      ensures q.filePath != StoredPath(dir, token, extension)
    {
      StoredPathInjective(dir, tokenOf[q.id], Extension(q.name).value, token, extension);
    }
  }

  /** Saving a record under the next id, named by a fresh token, keeps
      the invariant. */
  lemma SaveKeepsConsistent(dir: string, photos: seq<Photo>, nextId: nat, tokenOf: map<nat, string>,
                            usedTokens: set<string>, token: string, photo: Photo)
    requires Consistent(dir, photos, nextId, tokenOf, usedTokens)
    requires |token| == UUID_LENGTH && token !in usedTokens
    requires photo.id == nextId && Extension(photo.name).Some?
    requires photo.filePath == StoredPath(dir, token, Extension(photo.name).value)
    ensures Consistent(dir, photos + [photo], nextId + 1, tokenOf[nextId := token], usedTokens + {token})
  {
    var tokenOf' := tokenOf[nextId := token];
    forall q | q in photos + [photo]
      ensures q.id in tokenOf' && |tokenOf'[q.id]| == UUID_LENGTH
      ensures q.filePath == StoredPath(dir, tokenOf'[q.id], Extension(q.name).value)
    {
      if q != photo {
        assert q in photos;
      }
    }
  }

  /** Every record of `photos` has its file on disk in `after` exactly
      when it had it in `before`. */
  ghost predicate FilesKept(photos: seq<Photo>, before: set<string>, after: set<string>)
  {
    forall q :: q in photos ==> (q.filePath in after <==> q.filePath in before)
  }

  /** Removing the file of the record with a given id leaves the files of
      all other records on disk. */
  lemma RemovedPathOnlyTarget(dir: string, photos: seq<Photo>, tokenOf: map<nat, string>,
                              photo: Photo, files: set<string>)
    requires NamedByTokens(dir, photos, tokenOf) && TokensDistinct(tokenOf)
    requires photo in photos
    ensures FilesKept(RemoveId(photos, photo.id), files, files - {photo.filePath})
  {
    forall q | q in RemoveId(photos, photo.id)
      ensures q.filePath != photo.filePath
    {
      DifferentIdsDifferentPaths(dir, photos, tokenOf, q, photo);
    }
  }

  /** Deleting an id keeps the invariant. */
  lemma RemoveKeepsConsistent(dir: string, photos: seq<Photo>, nextId: nat, tokenOf: map<nat, string>,
                              usedTokens: set<string>, id: int)
    requires Consistent(dir, photos, nextId, tokenOf, usedTokens)
    ensures Consistent(dir, RemoveId(photos, id), nextId, tokenOf, usedTokens)
  {
    RemoveKeepsOrder(photos, id);
  }

  /** What an upload answers. */
  datatype UploadResult =
    | Stored(photo: Photo)
      /** an IOException, with its message */
    | IoFailure(message: string)
      /** the name has no dot: a StringIndexOutOfBoundsException */
    | BadFilename

  /** The answer of an upload, given whether the upload directory exists,
      the id the table assigns next, the file name, the random token, the
      clock and what the file system does: `dirFault` and `copyFault` are
      None when creating the directory and copying the bytes succeed and
      carry the IOException's message when they fail. */
  function UploadAnswer(dirExists: bool, dir: string, nextId: nat, name: string, token: string, now: int,
                        dirFault: Option<string>, copyFault: Option<string>): (r: UploadResult)
    ensures r.Stored? <==>
      (dirExists || dirFault.None?) && Extension(name).Some? && copyFault.None?
    ensures r.Stored? ==>
      r.photo == Photo(nextId, name, StoredPath(dir, token, Extension(name).value), now)
    ensures r == BadFilename <==> (dirExists || dirFault.None?) && Extension(name).None?
    ensures r.IoFailure? ==>
      r.message == if !dirExists && dirFault.Some? then dirFault.value else copyFault.value
  {
    if !dirExists && dirFault.Some? then IoFailure(dirFault.value)
    else
      var extension := Extension(name);
      if extension.None? then BadFilename
      else if copyFault.Some? then IoFailure(copyFault.value)
      else Stored(Photo(nextId, name, StoredPath(dir, token, extension.value), now))
  }

  class PhotoService {
    const uploadDir: string
    /** the photo table, in increasing id order */
    var photos: seq<Photo>
    /** the id the table assigns to the next record it saves */
    var nextId: nat
    /** the paths of the files on disk */
    var files: set<string>
    var dirExists: bool
    /** every random token handed out so far */
    ghost var usedTokens: set<string>
    /** the token in the stored name of every record ever saved */
    ghost var tokenOf: map<nat, string>

    ghost predicate Valid()
      reads this
    {
      Consistent(uploadDir, photos, nextId, tokenOf, usedTokens)
    }

    /** The service over an empty table; the disk holds `files` and the
        upload directory exists or not. */
    constructor (uploadDir: string, files: set<string>, dirExists: bool)
      ensures Valid()
      ensures this.uploadDir == uploadDir && this.files == files && this.dirExists == dirExists
      ensures photos == [] && nextId == 1 && usedTokens == {}
    {
      this.uploadDir := uploadDir;
      this.files := files;
      this.dirExists := dirExists;
      photos := [];
      nextId := 1;
      usedTokens := {};
      tokenOf := map[];
    }

    /** Valid implies that no two records share a file. */
    lemma PathsDistinct()
      requires Valid()
      ensures DistinctPaths(photos)
    {
      DistinctStoredPaths(uploadDir, photos, tokenOf);
    }

    method GetAllPhotos() returns (r: seq<Photo>)
      requires Valid()
      ensures r == photos
      ensures IdsIncreasing(r) && DistinctPaths(r)
    {
      PathsDistinct();
      r := photos;
    }

    method GetPhotoById(id: int) returns (r: Option<Photo>)
      requires Valid()
      ensures r.Some? ==> r.value in photos && r.value.id == id
      ensures r.None? <==> forall p :: p in photos ==> p.id != id
      ensures forall p :: p in photos && p.id == id ==> r == Some(p)
    {
      r := FindById(photos, id);
      if r.Some? {
        forall p | p in photos && p.id == id
          ensures r == Some(p)
        {
          FindUnique(photos, p);
        }
      }
    }

    /** Stores an uploaded file. `token` is the random UUID: it has a
        UUID's printed length and was never handed out before. */
    method UploadPhoto(originalFilename: string, token: string, now: int,
                       dirFault: Option<string>, copyFault: Option<string>) returns (r: UploadResult)
      requires Valid()
      requires |token| == UUID_LENGTH && token !in usedTokens
      modifies this
      ensures Valid()
      ensures r == UploadAnswer(old(dirExists), uploadDir, old(nextId), originalFilename, token, now, dirFault, copyFault)
      ensures dirExists == (old(dirExists) || dirFault.None?)
      ensures old(usedTokens) <= usedTokens <= old(usedTokens) + {token}
      ensures r.Stored? ==>
        && photos == old(photos) + [r.photo]
        && files == old(files) + {r.photo.filePath}
        && nextId == old(nextId) + 1
        && forall q :: q in old(photos) ==> q.filePath != r.photo.filePath
      ensures !r.Stored? ==> photos == old(photos) && files == old(files) && nextId == old(nextId)
    {
      if !dirExists {
        if dirFault.Some? {
          return IoFailure(dirFault.value);
        }
        dirExists := true;
      }
      var extension := Extension(originalFilename);
      if extension.None? {
        return BadFilename;
      }
      usedTokens := usedTokens + {token};
      var filePath := StoredPath(uploadDir, token, extension.value);
      if copyFault.Some? {
        return IoFailure(copyFault.value);
      }
      FreshTokenFreshPath(uploadDir, photos, nextId, tokenOf, old(usedTokens), token, extension.value);
      files := files + {filePath};
      var photo := Photo(nextId, originalFilename, filePath, now);
      SaveKeepsConsistent(uploadDir, photos, nextId, tokenOf, old(usedTokens), token, photo);
      photos := photos + [photo];
      tokenOf := tokenOf[nextId := token];
      nextId := nextId + 1;
      r := Stored(photo);
    }

    /** Deletes a record and its file. `deleteFault` says whether removing
        the file throws; the record goes either way. */
    method DeletePhoto(id: int, deleteFault: bool) returns (ok: bool)
      requires Valid()
      modifies this
      ensures Valid()
      ensures ok <==> FindById(old(photos), id).Some?
      ensures photos == RemoveId(old(photos), id)
      ensures files == if ok && !deleteFault then old(files) - {FindById(old(photos), id).value.filePath}
                       else old(files)
      ensures FilesKept(photos, old(files), files)
      ensures nextId == old(nextId) && dirExists == old(dirExists) && usedTokens == old(usedTokens)
    {
      var found := FindById(photos, id);
      if found.Some? {
        var photo := found.value;
        RemovedPathOnlyTarget(uploadDir, photos, tokenOf, photo, files);
        RemoveKeepsConsistent(uploadDir, photos, nextId, tokenOf, usedTokens, id);
        if !deleteFault {
          files := files - {photo.filePath};
        }
        photos := RemoveId(photos, id);
        return true;
      }
      RemoveAbsent(photos, id);
      return false;
    }
  }
}
