/**
 * Facts that tie the admin page and the home page together. The two pages share no
 * state but local storage, and each carries its own copy of the default document.
 */
module Pages {
  import opened Wrappers
  import opened SiteContent
  import Editor
  import opened Store
  import opened Admin
  import opened Home

  /** The two built-in documents differ only in the home page's sample offer under 'tecnologia'. */
  lemma DefaultsDifferOnlyInSampleOffer()
    ensures AdminDefault == HomeDefault.(offers := HomeDefault.offers["tecnologia" := []])
    ensures AdminDefault != HomeDefault
  {
    assert AdminDefault.offers["tecnologia"] != HomeDefault.offers["tecnologia"];
  }

  /**
   * The home page features the sample offer when nothing is stored, but once the admin
   * page has saved its untouched default, nothing is featured any more.
   */
  lemma SavingAdminDefaultHidesFeatured(s: Storage)
    ensures Featured(InitialData(EmptyStorage.siteData)) == Some([SampleOffer])
    ensures Featured(InitialData(Save(s, AdminDefault).siteData)) == None
  {
    FeaturedOnHomeDefault();
  }

  /** One offer added to 'tecnologia' and saved is featured on the home page, alone. */
  lemma AddedOfferIsFeatured(s: Storage)
    ensures var d := Editor.AddOffer(AdminDefault, "tecnologia");
            Featured(InitialData(Save(s, d).siteData)) == Some([BlankOffer])
  {
    var d := Editor.AddOffer(AdminDefault, "tecnologia");
    assert d.offers["tecnologia"] == [] + [BlankOffer] == [BlankOffer];
    assert InitialData(Save(s, d).siteData) == d;
  }

  /**
   * From the admin page's own initial document, "add category" followed by "add offer" on
   * the new category reaches the written `addOffer` with a key that `offers` does not hold.
   */
  lemma AdminDefaultAddCategoryMissesKey()
    ensures var r := Editor.AddCategory(AdminDefault);
            r.categories[|r.categories| - 1].slug == "" && "" !in r.offers
  {
    AdminDefaultOffers();
    Editor.AddOfferAfterAddCategoryMissesKey(AdminDefault);
  }
}
