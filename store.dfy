/**
 * The browser's local storage as the site uses it, and the operations on it that the
 * pages perform: key `siteData` holds the serialised document, key `adminAuth` records an
 * admin session. JSON text is not modelled: a stored or imported text is represented by
 * what `JSON.parse` makes of it, a document or a parse failure.
 */
module Store {
  import opened Wrappers
  import opened SiteContent

  /** The outcome of parsing a stored or imported text. */
  datatype Parsed = Parsed(doc: SiteData) | Malformed

  /** The two storage keys: `siteData` (None when unset) and `adminAuth` (its raw text). */
  datatype Storage = Storage(siteData: Option<Parsed>, adminAuth: Option<string>)

  const EmptyStorage := Storage(None, None)

  /**
   * Adopting the saved document: it replaces `current` when a value is stored and parses,
   * and `current` stays otherwise (the key is unset, or the text does not parse and only
   * a diagnostic is logged).
   */
  function LoadFallback(current: SiteData, saved: Option<Parsed>): (r: SiteData)
    ensures saved == None ==> r == current
    ensures saved == Some(Malformed) ==> r == current
    ensures saved.Some? && saved.value.Parsed? ==> r == saved.value.doc
  {
    match saved
    case Some(Parsed(doc)) => doc
    case _ => current
  }

  /** `saveData`: the whole document is written under `siteData`; `adminAuth` is untouched. */
  function Save(s: Storage, d: SiteData): (r: Storage)
    ensures r.siteData == Some(Parsed(d))
    ensures r.adminAuth == s.adminAuth
  {
    s.(siteData := Some(Parsed(d)))
  }

  /** Reading back right after a save gives the saved document, whatever was there before. */
  lemma LoadAfterSave(s: Storage, d: SiteData, current: SiteData)
    ensures LoadFallback(current, Save(s, d).siteData) == d
  {
  }

  /** A later save replaces an earlier one entirely: nothing of the first survives. */
  lemma SaveOverwrites(s: Storage, d1: SiteData, d2: SiteData)
    ensures Save(Save(s, d1), d2) == Save(s, d2)
  {
  }

  // ---------------------------------------------------------------------------
  // Admin session flag

  /** Login writes `adminAuth = 'true'`. */
  function MarkAuthenticated(s: Storage): (r: Storage)
    ensures r.adminAuth == Some("true")
    ensures r.siteData == s.siteData
  {
    s.(adminAuth := Some("true"))
  }

  /** Logout removes `adminAuth`. */
  function ClearAuthenticated(s: Storage): (r: Storage)
    ensures r.adminAuth == None
    ensures r.siteData == s.siteData
  {
    s.(adminAuth := None)
  }

  /** On mount the session counts as restored exactly when `adminAuth` holds the text 'true'. */
  predicate RestoresSession(s: Storage)
    ensures RestoresSession(s) ==> s.adminAuth.Some? && s.adminAuth.value != ""
  {
    s.adminAuth == Some("true")
  }

  lemma SessionFlagRoundTrip(s: Storage)
    ensures RestoresSession(MarkAuthenticated(s))
    ensures !RestoresSession(ClearAuthenticated(s))
    ensures !RestoresSession(s.(adminAuth := Some("True")))
    ensures forall t :: t != "true" ==> !RestoresSession(s.(adminAuth := Some(t)))
    ensures ClearAuthenticated(MarkAuthenticated(s)) == ClearAuthenticated(s)
  {
  }

  // ---------------------------------------------------------------------------
  // Credentials

  datatype LoginForm = LoginForm(email: string, password: string)

  const EmptyLoginForm := LoginForm("", "")

  const DefaultAdminEmail := "admin@exemplo.com"

  const DefaultAdminPassword := "admin123"

  /**
   * `process.env.X || fallback`: the configured value when one is set and non-empty,
   * otherwise the fallback (the empty string is falsy, so it falls back too).
   */
  function ConfiguredOr(env: Option<string>, fallback: string): (r: string)
    ensures env.Some? && env.value != "" ==> r == env.value
    ensures env.None? || env.value == "" ==> r == fallback
    ensures fallback != "" ==> r != ""
  {
    match env
    case Some(v) => if v != "" then v else fallback
    case None => fallback
  }

  /** The credentials `handleLogin` compares against. */
  function ExpectedEmail(envEmail: Option<string>): (r: string)
    ensures r != ""
    ensures envEmail.None? ==> r == DefaultAdminEmail
  {
    ConfiguredOr(envEmail, DefaultAdminEmail)
  }

  function ExpectedPassword(envPassword: Option<string>): (r: string)
    ensures r != ""
    ensures envPassword.None? ==> r == DefaultAdminPassword
  {
    ConfiguredOr(envPassword, DefaultAdminPassword)
  }

  /** Exact string equality on both fields; a login therefore always needs both fields filled in. */
  predicate CredentialsMatch(form: LoginForm, envEmail: Option<string>, envPassword: Option<string>)
    ensures CredentialsMatch(form, envEmail, envPassword) ==> form.email != "" && form.password != ""
  {
    form.email == ExpectedEmail(envEmail) && form.password == ExpectedPassword(envPassword)
  }

  /** With no configuration, exactly the placeholder pair logs in. */
  lemma DefaultCredentialsOnly(form: LoginForm)
    ensures CredentialsMatch(form, None, None) <==> form == LoginForm(DefaultAdminEmail, DefaultAdminPassword)
  {
  }

  /** Configuration set to the empty string behaves as no configuration at all. */
  lemma EmptyConfigurationFallsBack(form: LoginForm)
    ensures CredentialsMatch(form, Some(""), Some("")) == CredentialsMatch(form, None, None)
  {
  }

  /** The form as it stands right after logout never logs in: the expected values are non-empty. */
  lemma EmptyFormNeverMatches(envEmail: Option<string>, envPassword: Option<string>)
    ensures !CredentialsMatch(EmptyLoginForm, envEmail, envPassword)
  {
  }
}
