/**
 * The admin page: the state it holds (the session flag, the login form, the document
 * being edited and the status message) and the handlers that change it. Every handler's
 * effect on the document is one of the functions of Editor; writes to local storage go
 * through the functions of Store. The `store` field is the page's view of local storage.
 */
module Admin {
  import opened Wrappers
  import opened SiteContent
  import Editor
  import opened Store

  /** The admin page's built-in document: every category starts with no offers. */
  const AdminDefault := SiteData(
    DefaultHero,
    DefaultMarketplaces,
    DefaultCategories,
    map["tecnologia" := [], "casa-jardim" := [], "moda" := [], "bebes" := [], "games" := [], "beleza" := []],
    DefaultSocial,
    DefaultDisclaimer)

  const LoginSucceeded := "Login realizado com sucesso!"
  const LoginFailed := "Credenciais inválidas!"
  const SaveSucceeded := "Dados salvos com sucesso!"
  const ImportSucceeded := "Dados importados com sucesso!"
  const ImportFailed := "Erro ao importar dados!"

  /** Every category of the admin default has an (empty) offer list, and no other key exists. */
  lemma AdminDefaultOffers()
    ensures AdminDefault.offers.Keys == CategorySlugs(AdminDefault.categories)
    ensures forall c :: c in AdminDefault.offers ==> AdminDefault.offers[c] == []
  {
    var cs := AdminDefault.categories;
    assert cs[0].slug == "tecnologia" && cs[1].slug == "casa-jardim" && cs[2].slug == "moda";
    assert cs[3].slug == "bebes" && cs[4].slug == "games" && cs[5].slug == "beleza";
  }

  class AdminPage {
    var isAuthenticated: bool
    var loginForm: LoginForm
    var data: SiteData
    var message: string
    var store: Storage

    /** The page's initial state, before its mount effect runs, in a browser whose storage is `stored`. */
    constructor (stored: Storage)
      ensures !isAuthenticated && loginForm == EmptyLoginForm
      ensures data == AdminDefault && message == "" && store == stored
    {
      isAuthenticated := false;
      loginForm := EmptyLoginForm;
      data := AdminDefault;
      message := "";
      store := stored;
    }

    /** The mount effect: an `adminAuth` of exactly 'true' restores the session and loads the document. */
    method Mount()
      modifies this`isAuthenticated, this`data
      ensures isAuthenticated == (RestoresSession(store) || old(isAuthenticated))
      ensures data == if RestoresSession(store) then LoadFallback(old(data), store.siteData) else old(data)
    {
      if store.adminAuth == Some("true") {
        isAuthenticated := true;
        LoadData();
      }
    }

    /** `loadData`: adopt the stored document if there is one and it parses. */
    method LoadData()
      modifies this`data
      ensures data == LoadFallback(old(data), store.siteData)
    {
      match store.siteData
      case Some(Parsed(doc)) => data := doc;
      case _ =>
    }

    method SetLoginEmail(v: string)
      modifies this`loginForm
      ensures loginForm == old(loginForm).(email := v)
    {
      loginForm := loginForm.(email := v);
    }

    method SetLoginPassword(v: string)
      modifies this`loginForm
      ensures loginForm == old(loginForm).(password := v)
    {
      loginForm := loginForm.(password := v);
    }

    /**
     * `handleLogin`, with the two configuration variables as parameters. The login form that
     * calls it is shown only while the page is not authenticated. On success the
     * session is marked in storage and the stored document is loaded; on failure only the
     * message changes.
     */
    method HandleLogin(envEmail: Option<string>, envPassword: Option<string>) returns (ok: bool)
      requires !isAuthenticated
      modifies this`isAuthenticated, this`store, this`data, this`message
      ensures ok == CredentialsMatch(loginForm, envEmail, envPassword)
      ensures ok ==> isAuthenticated && store == MarkAuthenticated(old(store))
      ensures ok ==> data == LoadFallback(old(data), old(store).siteData) && message == LoginSucceeded
      ensures !ok ==> !isAuthenticated && store == old(store)
      ensures !ok ==> data == old(data) && message == LoginFailed
    {
      ok := CredentialsMatch(loginForm, envEmail, envPassword);
      if ok {
        isAuthenticated := true;
        store := MarkAuthenticated(store);
        LoadData();
        message := LoginSucceeded;
      } else {
        message := LoginFailed;
      }
    }

    /** `handleLogout`: the session ends, the flag leaves storage and the form is emptied. */
    method HandleLogout()
      modifies this`isAuthenticated, this`store, this`loginForm
      ensures !isAuthenticated && loginForm == EmptyLoginForm
      ensures store == ClearAuthenticated(old(store))
    {
      isAuthenticated := false;
      store := ClearAuthenticated(store);
      loginForm := EmptyLoginForm;
    }

    /** `saveData`: the whole document replaces whatever `siteData` held. */
    method SaveData()
      modifies this`store, this`message
      ensures store == Save(old(store), data) && message == SaveSucceeded
    {
      store := Save(store, data);
      message := SaveSucceeded;
    }

    /**
     * `importData`, with the chosen file given by what parsing its text yields (None when
     * no file was chosen): a parsed document replaces the current one wholesale; a parse
     * failure leaves it and reports the error.
     */
    method ImportData(file: Option<Parsed>)
      modifies this`data, this`message
      ensures file == None ==> data == old(data) && message == old(message)
      ensures file == Some(Malformed) ==> data == old(data) && message == ImportFailed
      ensures file.Some? && file.value.Parsed? ==> data == file.value.doc && message == ImportSucceeded
    {
      match file
      case None =>
      case Some(Malformed) =>
        message := ImportFailed;
      case Some(Parsed(doc)) =>
        data := doc;
        message := ImportSucceeded;
    }

    // -------------------------------------------------------------------------
    // Structural edits

    method AddMarketplace()
      modifies this`data
      ensures data == Editor.AddMarketplace(old(data))
    {
      data := Editor.AddMarketplace(data);
    }

    method RemoveMarketplace(index: int)
      modifies this`data
      ensures data == Editor.RemoveMarketplace(old(data), index)
    {
      data := Editor.RemoveMarketplace(data, index);
    }

    method AddCategory()
      modifies this`data
      ensures data == Editor.AddCategory(old(data))
    {
      data := Editor.AddCategory(data);
    }

    method RemoveCategory(index: int)
      modifies this`data
      ensures data == Editor.RemoveCategory(old(data), index)
    {
      data := Editor.RemoveCategory(data, index);
    }

    /**
     * "Add offer" for a category. The page's handler throws when the category has no offer
     * list yet; this handler appends to an empty list instead, and agrees with the page's
     * handler wherever that one does not throw (Editor.AddOfferOrCreateAgrees).
     */
    method AddOffer(category: string)
      modifies this`data
      ensures data == Editor.AddOfferOrCreate(old(data), category)
      ensures category in old(data).offers ==> data == Editor.AddOffer(old(data), category)
    {
      data := Editor.AddOfferOrCreate(data, category);
    }

    method RemoveOffer(category: string, index: int)
      requires category in data.offers
      modifies this`data
      ensures data == Editor.RemoveOffer(old(data), category, index)
    {
      data := Editor.RemoveOffer(data, category, index);
    }

    // -------------------------------------------------------------------------
    // Field edits, one per input of the editor tabs

    method SetHeroField(f: HeroField, v: string)
      modifies this`data
      ensures data == Editor.SetHeroField(old(data), f, v)
    {
      data := Editor.SetHeroField(data, f, v);
    }

    method SetMarketplaceField(index: int, f: MarketplaceField, v: string)
      requires 0 <= index < |data.marketplaces|
      modifies this`data
      ensures data == Editor.SetMarketplaceField(old(data), index, f, v)
    {
      data := Editor.SetMarketplaceField(data, index, f, v);
    }

    method SetCategoryField(index: int, f: CategoryField, v: string)
      requires 0 <= index < |data.categories|
      modifies this`data
      ensures data == Editor.SetCategoryField(old(data), index, f, v)
    {
      data := Editor.SetCategoryField(data, index, f, v);
    }

    method SetOfferField(category: string, index: int, f: OfferField, v: string)
      requires category in data.offers && 0 <= index < |data.offers[category]|
      modifies this`data
      ensures data == Editor.SetOfferField(old(data), category, index, f, v)
    {
      data := Editor.SetOfferField(data, category, index, f, v);
    }

    method SetSocialField(f: SocialField, v: string)
      modifies this`data
      ensures data == Editor.SetSocialField(old(data), f, v)
    {
      data := Editor.SetSocialField(data, f, v);
    }

    method SetDisclaimer(v: string)
      modifies this`data
      ensures data == Editor.SetDisclaimer(old(data), v)
    {
      data := Editor.SetDisclaimer(data, v);
    }
  }

  /**
   * A fresh browser: the editor starts from the built-in document with six categories;
   * adding one gives seven with the blank entry last, and loading after saving sees seven.
   */
  lemma FreshStoreAddCategoryScenario()
    ensures LoadFallback(AdminDefault, EmptyStorage.siteData) == AdminDefault
    ensures |AdminDefault.categories| == 6 && |AdminDefault.marketplaces| == 6
    ensures var d := Editor.AddCategory(AdminDefault);
            |d.categories| == 7 && d.categories[6] == BlankCategory &&
            |LoadFallback(AdminDefault, Save(EmptyStorage, d).siteData).categories| == 7
  {
  }

  /**
   * A session survives a reload exactly as long as no logout happened: after a successful
   * login a new page restores it, after a logout it does not.
   */
  method LoginReloadLogoutReload(stored: Storage) returns (restoredAfterLogin: bool, restoredAfterLogout: bool)
    ensures restoredAfterLogin && !restoredAfterLogout
  {
    var page := new AdminPage(stored);
    page.SetLoginEmail(DefaultAdminEmail);
    page.SetLoginPassword(DefaultAdminPassword);
    var ok := page.HandleLogin(None, None);
    assert ok;
    var reloaded := new AdminPage(page.store);
    reloaded.Mount();
    restoredAfterLogin := reloaded.isAuthenticated;
    reloaded.HandleLogout();
    var again := new AdminPage(reloaded.store);
    again.Mount();
    restoredAfterLogout := again.isAuthenticated;
  }
}
