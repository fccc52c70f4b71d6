/** The club schema: a record, the setters applied on construction, and its validators. */
module ClubModel {
  import opened Common
  import opened JsString

  /** A stored club. `members` is a plain list of user ids: the schema does not make
      them unique. */
  datatype Club = Club(
    id: Id,
    name: string,
    description: string,
    logoUrl: Option<string>,
    coordinator: Id,
    members: seq<Id>,
    createdAt: int)

  /** The paths of a club document before it is saved. */
  datatype ClubFields = ClubFields(
    name: Option<string>,
    description: Option<string>,
    logoUrl: Option<string>,
    coordinator: Option<Id>,
    members: seq<Id>)

  /** The `trim` setter of the name path. */
  function CastClub(f: ClubFields): ClubFields {
    f.(name := if f.name.Some? then Some(Trim(f.name.value)) else None)
  }

  /** The validators: name, description and coordinator are required; the logo and the
      member list carry no rule. */
  predicate ClubFieldsValid(f: ClubFields) {
    Truthy(f.name) && Truthy(f.description) && f.coordinator.Some?
  }

  predicate ClubRecordValid(c: Club) {
    c.name != "" && Trimmed(c.name) && c.description != ""
  }

  function ClubRecord(f: ClubFields, id: Id, createdAt: int): Club
    requires ClubFieldsValid(f)
  {
    Club(id, f.name.value, f.description.value, f.logoUrl, f.coordinator.value, f.members, createdAt)
  }

  /** A cast document that passes validation is saved as a valid record. */
  lemma CastClubRecordValid(f: ClubFields, id: Id, createdAt: int)
    requires ClubFieldsValid(CastClub(f))
    ensures ClubRecordValid(ClubRecord(CastClub(f), id, createdAt))
  {
    var _, _ := TrimSpec(f.name.value);
  }

  /** The `unique` index of the name path. */
  predicate UniqueClubNames(clubs: seq<Club>) {
    forall i, j :: 0 <= i < j < |clubs| ==> clubs[i].name != clubs[j].name
  }
}
