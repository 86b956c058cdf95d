/** The User document, restricted to the fields the matching engine reads. */
module UserModel {
  import opened Common

  datatype Gender = Male | Female
  datatype GenderPreference = PreferMale | PreferFemale | PreferBoth

  /** A stored user. `gender` and `genderPreference` are `None` while unset
      (the schema's `null`). Bio, picture and login bookkeeping are not read
      by the core and are not modelled. */
  datatype User = User(
    id: UserId,
    email: string,
    password: string,
    name: string,
    gender: Option<Gender>,
    genderPreference: Option<GenderPreference>)

  /** A user as the endpoints return it: the document without its password. */
  datatype Profile = Profile(
    id: UserId,
    email: string,
    name: string,
    gender: Option<Gender>,
    genderPreference: Option<GenderPreference>)

  /** `select("-password")`: every field but the password. */
  function ToProfile(u: User): (p: Profile)
    ensures p.id == u.id && p.email == u.email && p.name == u.name
    ensures p.gender == u.gender && p.genderPreference == u.genderPreference
  {
    Profile(u.id, u.email, u.name, u.gender, u.genderPreference)
  }

  /** The unique indexes of the users collection: `_id` and `email`. */
  ghost predicate Directory(users: seq<User>) {
    forall i, j :: 0 <= i < j < |users| ==>
      users[i].id != users[j].id && users[i].email != users[j].email
  }

  /** `User.findOne({ _id: id })`: the first stored user with that id. */
  function FindUser(users: seq<User>, id: UserId): (r: Option<User>)
    ensures r.Some? ==> r.value in users && r.value.id == id
    ensures r.None? <==> forall u :: u in users ==> u.id != id
  {
    if users == [] then None
    else if users[0].id == id then Some(users[0])
    else FindUser(users[1..], id)
  }

  /** The feed's gender filter: `{ gender: preference }` unless the
      preference is "both", in which case there is no filter. A user whose
      gender is unset passes only the "both" preference. */
  predicate Accepts(preference: GenderPreference, gender: Option<Gender>): (ok: bool)
    ensures preference == PreferBoth ==> ok
    ensures gender.None? ==> (ok <==> preference == PreferBoth)
    ensures gender == Some(Male) ==> (ok <==> preference != PreferFemale)
    ensures gender == Some(Female) ==> (ok <==> preference != PreferMale)
  {
    match preference
    case PreferBoth => true
    case PreferMale => gender == Some(Male)
    case PreferFemale => gender == Some(Female)
  }
}
