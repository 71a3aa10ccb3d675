/** Two client sessions that use only the contracts above: one
    registration followed by a refused second one and two logins, and two
    uploads under the same name followed by a delete. */
module Scenarios {
  import opened Wrappers
  import opened Http
  import opened UserStore
  import opened AuthApi
  import opened PhotoStore
  import opened PhotoApi

  method AccountSession()
  {
    var store := new UserService();
    var api := new AuthController(store);
    var r := api.Signup(Credentials(Some("alice"), Some("secret")));
    assert r.status == CREATED;
    r := api.Signup(Credentials(Some("bob"), Some("x")));
    assert r.status == CONFLICT;
    r := api.Login(Credentials(Some("alice"), Some("secret")));
    assert r.status == OK;
    r := api.Login(Credentials(Some("alice"), Some("wrong")));
    assert r.status == UNAUTHORIZED;
    r := api.Login(Credentials(Some("bob"), Some("x")));
    assert r.status == UNAUTHORIZED;
    r := api.Login(Credentials(Some("alice"), None));
    assert r.status == BAD_REQUEST;
    r := api.CheckUserExists();
    assert r.body == UserCheck(true);
  }

  method PhotoSession(dir: string, t1: string, t2: string, now: int)
    requires |t1| == UUID_LENGTH && |t2| == UUID_LENGTH && t1 != t2
  {
    var service := new PhotoService(dir, {}, false);
    assert "cat.jpg"[3] == '.';
    var first := service.UploadPhoto("cat.jpg", t1, now, None, None);
    assert first.Stored? && first.photo.id == 1;
    var second := service.UploadPhoto("cat.jpg", t2, now, None, None);
    assert second.Stored? && second.photo.id == 2;
    assert first.photo.filePath != second.photo.filePath;
    assert service.photos == [first.photo, second.photo];
    var api := new PhotoController(service);
    var r := api.DeletePhoto(1, false);
    assert r.status == OK;
    FindAfterRemove([first.photo, second.photo], 1, 2);
    assert second.photo in service.photos;
    r := api.DownloadPhoto(2, true, false);
    assert r == Response(OK, Attachment("cat.jpg", second.photo.filePath));
    r := api.DeletePhoto(1, false);
    assert r.status == NOT_FOUND;
  }

  /** Uploads through the controller get consecutive ids, and a delete in
      between does not reuse one. */
  method ControllerUploadSession(dir: string, t1: string, t2: string, now: int)
    requires |t1| == UUID_LENGTH && |t2| == UUID_LENGTH && t1 != t2
  {
    var service := new PhotoService(dir, {}, true);
    var api := new PhotoController(service);
    assert "dog.png"[3] == '.';
    var r := api.UploadPhoto("dog.png", t1, now, None, None);
    assert r == Response(OK, Uploaded(true, UPLOADED, 1));
    assert service.nextId == 2 && service.usedTokens <= {t1};
    r := api.DeletePhoto(1, false);
    assert r.status == OK && service.nextId == 2 && t2 !in service.usedTokens;
    r := api.UploadPhoto("dog.png", t2, now, None, None);
    assert r == Response(OK, Uploaded(true, UPLOADED, 2));
  }
}
