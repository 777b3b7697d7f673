/** The backend's user documents: the document a new account is stored as, and the public
    view of a stored account that the API returns. */
module UserModel {
  import opened Wrappers
  import opened Text
  import opened DateTimes
  import opened Documents

  const LocalProvider: string := "local"

  /** The keys every new account document has. */
  const UserKeys: set<string> := {"email", "name", "auth_provider", "google_id", "created_at"}

  /** The keys the public view never shows. */
  const HiddenKeys: set<string> := {"_id", "hashed_password", "google_id", "auth_provider"}

  /** A new account: the email lower-cased, the provider "local" unless given, no Google id
      unless given, created at `nowUs` (UTC); the password hash is stored only when it is a
      non-empty text. */
  function CreateUser(email: string, name: string, hashedPassword: Option<string>,
                      authProvider: Option<string>, googleId: Option<string>, nowUs: int): (doc: Doc)
    ensures doc.Keys == UserKeys + (if "hashed_password" in doc then {"hashed_password"} else {})
    ensures doc["email"] == Str(ToLower(email)) && doc["name"] == Str(name)
    ensures doc["auth_provider"] == Str(if authProvider.Some? then authProvider.value else LocalProvider)
    ensures doc["google_id"] == (if googleId.Some? then Str(googleId.value) else Null)
    ensures doc["created_at"] == Time(DateTime(nowUs, Utc))
    ensures "hashed_password" in doc <==> hashedPassword.Some? && hashedPassword.value != ""
    ensures "hashed_password" in doc ==> doc["hashed_password"] == Str(hashedPassword.value)
  {
    var doc := map[
      "email" := Str(ToLower(email)),
      "name" := Str(name),
      "auth_provider" := Str(authProvider.GetOr(LocalProvider)),
      "google_id" := (if googleId.Some? then Str(googleId.value) else Null),
      "created_at" := Time(DateTime(nowUs, Utc))];
    if hashedPassword.Some? && hashedPassword.value != "" then
      doc["hashed_password" := Str(hashedPassword.value)]
    else doc
  }

  /** What the public view needs of a non-empty document: an ObjectId under "_id". */
  predicate HasObjectId(doc: Doc) {
    doc != map[] ==> "_id" in doc && doc["_id"].Oid?
  }

  /** The public view: an empty document is returned as it is; otherwise "_id" becomes the
      text "id", the password hash, Google id and provider are dropped, and every other key
      keeps its value. */
  function UserToDict(doc: Doc): (r: Doc)
    requires HasObjectId(doc)
    ensures doc == map[] ==> r == doc
    ensures doc != map[] ==> r.Keys == (doc.Keys - HiddenKeys) + {"id"}
    ensures doc != map[] ==> r["id"] == Str(ObjectIdText(doc["_id"].id))
    ensures forall k :: k in doc && k !in HiddenKeys && k != "id" ==> k in r && r[k] == doc[k]
  {
    if doc == map[] then doc
    else (map k | k in doc && k !in HiddenKeys :: doc[k])["id" := Str(ObjectIdText(doc["_id"].id))]
  }

  /** Of a stored new account only the email, name and creation time are not hidden. */
  lemma StoredUserShown(email: string, name: string, hashedPassword: Option<string>, authProvider: Option<string>,
                        googleId: Option<string>, nowUs: int, id: ObjectId)
    ensures var stored := CreateUser(email, name, hashedPassword, authProvider, googleId, nowUs)["_id" := Oid(id)];
      stored.Keys - HiddenKeys == {"email", "name", "created_at"}
  {
    var created := CreateUser(email, name, hashedPassword, authProvider, googleId, nowUs);
    assert created.Keys <= UserKeys + {"hashed_password"};
    assert UserKeys - HiddenKeys == {"email", "name", "created_at"};
  }

  /** A newly stored account is shown with exactly its id, lower-cased email, name and
      creation time; nothing about how it signs in. */
  lemma NewUserView(email: string, name: string, hashedPassword: Option<string>, authProvider: Option<string>,
                    googleId: Option<string>, nowUs: int, id: ObjectId)
    ensures var stored := CreateUser(email, name, hashedPassword, authProvider, googleId, nowUs)["_id" := Oid(id)];
      UserToDict(stored) == map["id" := Str(ObjectIdText(id)), "email" := Str(ToLower(email)),
                                "name" := Str(name), "created_at" := Time(DateTime(nowUs, Utc))]
  {
    var stored := CreateUser(email, name, hashedPassword, authProvider, googleId, nowUs)["_id" := Oid(id)];
    var view := UserToDict(stored);
    var expected := map["id" := Str(ObjectIdText(id)), "email" := Str(ToLower(email)),
                        "name" := Str(name), "created_at" := Time(DateTime(nowUs, Utc))];
    StoredUserShown(email, name, hashedPassword, authProvider, googleId, nowUs, id);
    assert view.Keys == expected.Keys;
    assert view == expected;
  }
}
