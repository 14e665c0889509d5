/** `OAuthState::extract_identity`: the one gate between an untrusted
    provider profile and a created session. It maps an untyped JSON profile to
    a user id with an optional display name and email, each found through a
    chain of fallback keys. A chain stops at the first key that is PRESENT:
    if that value has the wrong JSON type, later keys are not consulted. */
module Identity {
  import opened Wrappers
  import opened Json
  import Decimal

  /** The normalised identity (`OAuthUser`). */
  datatype OAuthUser = OAuthUser(id: string, name: Option<string>, email: Option<string>)

  /** `a.or_else(|| b).or_else(|| c)`: the first of three lookups that is present. */
  function FirstPresent(a: Option<Value>, b: Option<Value>, c: Option<Value>): (r: Option<Value>)
    ensures a.Some? ==> r == a
    ensures a.None? && b.Some? ==> r == b
    ensures a.None? && b.None? ==> r == c
  {
    match a
    case Some(_) => a
    case None => match b
      case Some(_) => b
      case None => c
  }

  /** An id value: a JSON string verbatim, a JSON number as its decimal text,
      nothing for any other type. */
  function IdText(v: Value): Option<string> {
    match v
    case String(text) => Some(text)
    case Number(n) => Some(Decimal.IntToString(n))
    case _ => None
  }

  /** `profile.get("sub").or_else(get("id")).or_else(pointer("/user/id"))`,
      then the id conversion. */
  function IdOf(profile: Value): (r: Option<string>)
    ensures forall id :: r == Some(id) <==> IdClaimed(profile, id)
  {
    var user := Get(profile, "user");
    assert Pointer(profile, ["user", "id"]) == if user.Some? then Get(user.value, "id") else None by {
      if user.Some? {
        assert ["user", "id"][1..] == ["id"];
        assert ["id"][1..] == [];
      }
    }
    match FirstPresent(Get(profile, "sub"), Get(profile, "id"), Pointer(profile, ["user", "id"]))
    case Some(v) => IdText(v)
    case None => None
  }

  /** `get("name").or_else(get("preferred_username")).or_else(get("login"))`,
      kept only if a JSON string. */
  function NameOf(profile: Value): (r: Option<string>)
    ensures profile.Object? ==> r == NameClaimed(profile)
    ensures !profile.Object? ==> r.None?
  {
    match FirstPresent(Get(profile, "name"), Get(profile, "preferred_username"), Get(profile, "login"))
    case Some(v) => AsStr(v)
    case None => None
  }

  /** The whole extraction: nothing for `null` or when no usable id is found;
      otherwise the id with the name and email that are present as strings. */
  function ExtractIdentity(profile: Value): (r: Option<OAuthUser>)
    ensures profile.Null? ==> r.None?
    ensures r.Some? ==> profile.Object?
    ensures r.Some? ==> IdClaimed(profile, r.value.id)
    ensures forall id :: IdClaimed(profile, id) ==> r.Some? && r.value.id == id
    ensures r.Some? ==> r.value.email == EmailClaimed(profile)
    ensures r.Some? ==> r.value.name == NameClaimed(profile)
  {
    if profile.Null? then None
    else
      match IdOf(profile)
      case None => None
      case Some(id) =>
        var email := match Get(profile, "email") case Some(v) => AsStr(v) case None => None;
        Some(OAuthUser(id, NameOf(profile), email))
  }

  /* The meaning of the three chains, read key by key off the profile. */

  /** `id` is the profile's id: from `sub` when present, else from `id` when
      present, else from the `id` member of a `user` object. */
  ghost predicate IdClaimed(profile: Value, id: string) {
    && profile.Object?
    && var f := profile.fields;
       if "sub" in f then IdText(f["sub"]) == Some(id)
       else if "id" in f then IdText(f["id"]) == Some(id)
       else
         && "user" in f && f["user"].Object? && "id" in f["user"].fields
         && IdText(f["user"].fields["id"]) == Some(id)
  }

  /** The email: the `email` member when it is a JSON string. */
  ghost function EmailClaimed(profile: Value): Option<string>
    requires profile.Object?
  {
    var f := profile.fields;
    if "email" in f && f["email"].String? then Some(f["email"].text) else None
  }

  /** The name: the first present of `name`, `preferred_username`, `login`,
      when that one is a JSON string. */
  ghost function NameClaimed(profile: Value): Option<string>
    requires profile.Object?
  {
    var f := profile.fields;
    var key := if "name" in f then "name" else if "preferred_username" in f then "preferred_username" else "login";
    if key in f && f[key].String? then Some(f[key].text) else None
  }

  /** `{"sub": "abc123", "email": "a@b.com", "name": "A"}` gives all three fields. */
  lemma SubjectWithEmailAndName()
    ensures ExtractIdentity(Object(map["sub" := String("abc123"), "email" := String("a@b.com"), "name" := String("A")]))
         == Some(OAuthUser("abc123", Some("A"), Some("a@b.com")))
  {
  }

  /** `{"id": 42}` gives the id `"42"` and nothing else. */
  lemma NumericId()
    ensures ExtractIdentity(Object(map["id" := Number(42)])) == Some(OAuthUser("42", None, None))
  {
    assert Decimal.NatToString(4) == "4";
    assert Decimal.IntToString(42) == "42";
  }

  /** `{}` and `null` give nothing. */
  lemma EmptyOrNullProfile()
    ensures ExtractIdentity(Object(map[])).None?
    ensures ExtractIdentity(Null).None?
  {
  }

  /** A present `sub` of the wrong type ends the search even when `id` would do. */
  lemma WrongTypedSubjectHasNoFallback()
    ensures ExtractIdentity(Object(map["sub" := Bool(true), "id" := String("u1")])).None?
  {
  }

  /** The nested `user.id` is consulted only when neither `sub` nor `id` is present. */
  lemma NestedUserId()
    ensures ExtractIdentity(Object(map["user" := Object(map["id" := String("u7")]), "login" := String("octo")]))
         == Some(OAuthUser("u7", Some("octo"), None))
  {
  }
}
