/**
 * The connect form of app/page.tsx: the form fields, when the form may be
 * submitted, the credentials it builds, and the store updates of a submit.
 */
module Connect {
  import opened Wrappers
  import opened Store
  import S3Client

  /** The form's fields, as typed. */
  datatype FormData = FormData(
    accessKey: string,
    secretKey: string,
    region: string,
    bucketName: string,
    prefix: string)

  /** The form as first shown: region "us-east-1", every other field empty. */
  const InitialForm: FormData := FormData("", "", "us-east-1", "", "")

  /** `isFormValid`: the four required fields are non-empty (truthy); the prefix is optional. */
  function IsFormValid(form: FormData): (valid: bool)
    ensures valid <==> "" !in [form.accessKey, form.secretKey, form.region, form.bucketName]
  {
    form.accessKey != "" && form.secretKey != "" && form.region != "" && form.bucketName != ""
  }

  /** The prefix never affects validity, and the initial form cannot be submitted. */
  lemma FormValidity(form: FormData, prefix: string)
    ensures IsFormValid(form) == IsFormValid(form.(prefix := prefix))
    ensures !IsFormValid(InitialForm)
  {
  }

  /** The credentials a submit builds; an empty prefix (`prefix || undefined`) becomes absent. */
  function BuildCredentials(form: FormData): (c: Credentials)
    ensures c.accessKey == form.accessKey && c.secretKey == form.secretKey
    ensures c.region == form.region && c.bucketName == form.bucketName
    ensures c.prefix.None? <==> form.prefix == ""
    ensures c.prefix.Some? ==> c.prefix.value == form.prefix
  {
    Credentials(form.accessKey, form.secretKey, form.region, form.bucketName,
                if form.prefix == "" then None else Some(form.prefix))
  }

  /**
   * The form that would show a set of credentials again (an absent prefix is
   * an empty field). The page has no such function; it is the inverse of
   * `BuildCredentials` that shows the latter loses nothing.
   */
  function FormOf(c: Credentials): FormData {
    FormData(c.accessKey, c.secretKey, c.region, c.bucketName,
             match c.prefix case None => "" case Some(p) => p)
  }

  /** Building credentials loses nothing the form held. */
  lemma BuildCredentialsRoundTrip(form: FormData)
    ensures FormOf(BuildCredentials(form)) == form
  {
  }

  /** The page's own state beside the shared store. */
  class ConnectPage {
    const store: AppStore
    var form: FormData

    constructor (store: AppStore)
      ensures this.store == store && form == InitialForm
    {
      this.store := store;
      form := InitialForm;
    }

    /** An `onChange` handler: the edited form replaces the old one. */
    method SetForm(f: FormData)
      modifies this
      ensures form == f
    {
      form := f;
    }

    /**
     * `handleSubmit` at time `now`, given how the awaited validation ended.
     * The error is cleared and loading set first (`pending` is the state
     * while validation is awaited). If validation resolves (whatever boolean
     * it resolves to) the credentials are stored, the store is connected and
     * a session starts; if it throws, the error is set and the credentials
     * and connection are left alone. Loading is off at the end either way.
     */
    method HandleSubmit(now: int, validation: Awaited<bool>) returns (ghost pending: StoreState)
      modifies store
      ensures pending == old(store.State()).(error := None, isLoading := true)
      ensures validation.Resolved? ==>
        store.State() == pending.(
          credentials := Some(BuildCredentials(form)),
          isConnected := true,
          sessionExpiry := Some(now + SessionDurationMs),
          isLoading := false)
      ensures validation.Rejected? ==>
        store.State() == pending.(
          error := Some(MessageOf(validation.thrown, "Connection failed")),
          isLoading := false)
    {
      store.SetError(None);
      store.SetLoading(true);
      pending := store.State();
      var credentials := BuildCredentials(form);
      match validation {
        case Resolved(_) =>
          store.SetCredentials(credentials);
          store.SetConnected(true);
          store.InitSession(now);
        case Rejected(thrown) =>
          store.SetError(Some(MessageOf(thrown, "Connection failed")));
      }
      store.SetLoading(false);
    }

    /**
     * A submit against the mock client: its validation resolves for every
     * credential value, so the store always ends up connected.
     */
    method SubmitToMock(now: int)
      modifies store
      ensures store.State() == old(store.State()).(
        credentials := Some(BuildCredentials(form)),
        isConnected := true,
        sessionExpiry := Some(now + SessionDurationMs),
        error := None,
        isLoading := false)
    {
      var ok := S3Client.ValidateCredentials(BuildCredentials(form));
      ghost var pending := HandleSubmit(now, Resolved(ok));
    }
  }
}
