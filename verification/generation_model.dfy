/**
 The Generation record: the `GenerationType` enumeration and the rules the
 Mongoose schema applies when a record is built and validated before it is
 written (required fields, the enumeration check, defaults).
 */
module GenerationModel {
  import opened Outcomes

  /** The artifact a generation produces. */
  datatype GenerationType = Summary | FlashCards | KeyPoints {

    /** The string the enumeration member stands for. */
    function Value(): string {
      match this
      case Summary => "summary"
      case FlashCards => "flashcards"
      case KeyPoints => "key_points"
    }
  }

  /** `Object.values(GenerationType).includes(s)`, returning the member. */
  function ParseGenerationType(s: string): (r: Option<GenerationType>)
    ensures r.Some? ==> r.value.Value() == s
    ensures r.None? ==> forall t: GenerationType :: t.Value() != s
  {
    if s == "summary" then Some(Summary)
    else if s == "flashcards" then Some(FlashCards)
    else if s == "key_points" then Some(KeyPoints)
    else None
  }

  /** The three members stand for three different strings, and each string
      reads back as its member. */
  lemma GenerationTypeValues(t: GenerationType, u: GenerationType)
    ensures t != u ==> t.Value() != u.Value()
    ensures ParseGenerationType(t.Value()) == Some(t)
  {
  }

  /** The fields handed to `new Generation({...})`; an absent field is
      `undefined`. */
  datatype Draft = Draft(
    originalContent: Option<string>,
    generatedContent: Option<string>,
    fileName: Option<string>,
    generationType: Option<string>,
    userGivenName: Option<string>,
    uploadDate: Option<int>,
    originalFileUrl: Option<string>,
    userId: Option<string>)

  /** A record as stored: `id` is the document's `_id`, `uploadDate` a
      time stamp in milliseconds. */
  datatype Generation = Generation(
    id: string,
    originalContent: string,
    generatedContent: string,
    fileName: string,
    generationType: GenerationType,
    userGivenName: Option<string>,
    uploadDate: int,
    originalFileUrl: string,
    userId: string)

  /** Mongoose's `required` check on a string path: `undefined` and the
      empty string both fail it. */
  predicate Present(v: Option<string>) {
    v.Some? && v.value != ""
  }

  /** What every stored record satisfies. */
  predicate Valid(g: Generation) {
    && g.originalContent != ""
    && g.generatedContent != ""
    && g.fileName != ""
    && g.originalFileUrl != ""
    && g.userId != ""
  }

  /** The message of the error `save()` throws when validation fails. */
  const ValidationFailed := "Generation validation failed"

  /** Build and validate the document `save()` would write, applying the
      schema defaults; `now` is the clock reading `Date.now` gives. */
  function Validate(id: string, d: Draft, now: int): (r: Result<Generation>)
    ensures r.Ok? <==>
      && Present(d.originalContent) && Present(d.generatedContent)
      && Present(d.fileName) && Present(d.originalFileUrl) && Present(d.userId)
      && d.generationType.Some? && ParseGenerationType(d.generationType.value).Some?
    ensures r.Ok? ==> Valid(r.value)
    ensures r.Ok? ==>
      && r.value.id == id
      && r.value.originalContent == d.originalContent.value
      && r.value.generatedContent == d.generatedContent.value
      && r.value.fileName == d.fileName.value
      && r.value.generationType.Value() == d.generationType.value
      && r.value.userGivenName == d.userGivenName
      && r.value.uploadDate == d.uploadDate.GetOr(now)
      && r.value.originalFileUrl == d.originalFileUrl.value
      && r.value.userId == d.userId.value
    ensures r.Thrown? ==> r.message == ValidationFailed
  {
    if !Present(d.originalContent) || !Present(d.generatedContent) || !Present(d.fileName)
       || d.generationType.None? || !Present(d.originalFileUrl) || !Present(d.userId)
    then Thrown(ValidationFailed)
    else match ParseGenerationType(d.generationType.value)
      case None => Thrown(ValidationFailed)
      case Some(t) =>
        Ok(Generation(id, d.originalContent.value, d.generatedContent.value, d.fileName.value,
                      t, d.userGivenName, d.uploadDate.GetOr(now),
                      d.originalFileUrl.value, d.userId.value))
  }

  /** The fields of a stored record, as a draft. */
  function ToDraft(g: Generation): Draft {
    Draft(Some(g.originalContent), Some(g.generatedContent), Some(g.fileName),
          Some(g.generationType.Value()), g.userGivenName, Some(g.uploadDate),
          Some(g.originalFileUrl), Some(g.userId))
  }

  /** Validation accepts exactly the valid records, and gives each back
      unchanged whatever the clock reads. */
  lemma ValidateRoundTrip(g: Generation, now: int)
    ensures Validate(g.id, ToDraft(g), now).Ok? <==> Valid(g)
    ensures Valid(g) ==> Validate(g.id, ToDraft(g), now) == Ok(g)
  {
    GenerationTypeValues(g.generationType, g.generationType);
  }

  /** A draft without `uploadDate` is stamped with the clock, and one without
      `userGivenName` stays without it. */
  lemma DefaultsApplied(id: string, d: Draft, now: int)
    requires Validate(id, d, now).Ok?
    ensures d.uploadDate.None? ==> Validate(id, d, now).value.uploadDate == now
    ensures d.userGivenName.None? ==> Validate(id, d, now).value.userGivenName.None?
  {
  }

  /** Every record of a collection is valid. */
  predicate AllValid(store: seq<Generation>) {
    forall i :: 0 <= i < |store| ==> Valid(store[i])
  }
}
