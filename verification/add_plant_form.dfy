/**
 * The add-plant form: four text fields, client-side validation of name and
 * species, defaults for the image, location, dates and carbon savings, and a
 * reset of the fields once the store reports success.
 */
module AddPlantForm {
  import opened Wrappers
  import opened Types
  import PlantsApi

  /** The form's controlled fields. */
  datatype FormData = FormData(name: string, species: string, description: string, imageUrl: string)

  /** The result of one submit: the fields afterwards, the message shown, and the body handed to the store. */
  datatype Submission = Submission(form: FormData, error: Option<string>, sent: Option<PlantsApi.Draft>)

  const RequiredMessage: string := "Name and species are required"
  const DefaultLocation: string := "Not specified"
  const PlaceholderImage: string :=
    "https://images.unsplash.com/photo-1520412099551-62b6bafeb5bb?ixlib=rb-1.2.1&auto=format&fit=crop&w=800&q=80"

  /** The fields the form starts with and returns to. */
  function EmptyForm(): (f: FormData)
    ensures f.name == f.species == f.description == f.imageUrl == ""
  {
    FormData("", "", "", "")
  }

  /**
   * The body sent to the store, or the validation message. `now` is the ISO
   * string of the current instant, used for both dates.
   */
  function BuildPayload(form: FormData, now: string): (r: Result<PlantsApi.Draft, string>)
    ensures r.Failure? <==> form.name == "" || form.species == ""
    ensures r.Failure? ==> r.error == RequiredMessage
    ensures r.Success? ==>
              && r.value.id.None?
              && r.value.name == Some(form.name) && r.value.species == Some(form.species)
              && r.value.description == Some(form.description)
              && r.value.location == Some(DefaultLocation)
              && r.value.imageUrl == (if form.imageUrl == "" then PlaceholderImage else form.imageUrl)
              && r.value.dateAdded == now && r.value.lastWatered == now
              && r.value.sensorId.None? && r.value.carbonSavings == 0.0
  {
    if form.name == "" || form.species == "" then Failure(RequiredMessage)
    else
      var imageUrl := if form.imageUrl != "" then form.imageUrl else PlaceholderImage;
      Success(PlantsApi.Draft(None, Some(form.name), Some(form.species), Some(DefaultLocation),
                              imageUrl, now, now, Some(form.description), None, 0.0))
  }

  /**
   * `handleSubmit`, given whether the store's `addPlant` reported success.
   * The store's failures do not throw, so a failed add leaves the form's own
   * message empty and the fields as typed.
   */
  function Submit(form: FormData, now: string, addSucceeded: bool): (s: Submission)
    ensures s.sent.None? <==> form.name == "" || form.species == ""
    ensures s.sent.None? ==> s.error == Some(RequiredMessage) && s.form == form
    ensures s.sent.Some? ==> s.error.None? && BuildPayload(form, now) == Success(s.sent.value)
    ensures s.sent.Some? && addSucceeded ==> s.form == EmptyForm()
    ensures !addSucceeded ==> s.form == form
  {
    match BuildPayload(form, now)
    case Failure(message) => Submission(form, Some(message), None)
    case Success(draft) => Submission(if addSucceeded then EmptyForm() else form, None, Some(draft))
  }

  /**
   * Every body the form sends passes the server's validation, and the plant
   * the server stores carries the form's name and species, the default
   * location and zero carbon savings.
   */
  lemma SentBodyIsAccepted(form: FormData, now: string, addSucceeded: bool, registry: seq<Plant>, freshId: string)
    requires Submit(form, now, addSucceeded).sent.Some?
    ensures var body := Submit(form, now, addSucceeded).sent.value;
            && PlantsApi.HasRequiredFields(body)
            && PlantsApi.Handle("POST", registry, body, freshId).reply.status == 201
            && var p := PlantsApi.Stored(body, freshId);
               p.name == form.name && p.species == form.species && p.location == DefaultLocation
               && p.carbonSavings == 0.0 && p.imageUrl != ""
  {
    var body := Submit(form, now, addSucceeded).sent.value;
    assert BuildPayload(form, now) == Success(body);
    assert DefaultLocation != "";
    assert PlaceholderImage != "";
  }

  /** The form rejects exactly the name and species the server would reject; the location it fills in always passes. */
  lemma FormCheckMatchesServer(form: FormData, now: string)
    ensures BuildPayload(form, now).Failure? <==>
            !PlantsApi.HasRequiredFields(PlantsApi.Draft(None, Some(form.name), Some(form.species),
                                                         Some(DefaultLocation), "", now, now, None, None, 0.0))
  {
    assert DefaultLocation != "";
  }
}
