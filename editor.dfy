/**
 * The admin panel's editing operations, each a replacement of the current document by a
 * new one: append a blank entry, remove an entry by position, and overwrite one text
 * field. Removal follows `filter((_, i) => i !== index)`, so an index outside the list
 * leaves it as it was.
 */
module Editor {
  import opened Wrappers
  import opened SiteContent

  // ---------------------------------------------------------------------------
  // Removal by position

  /**
   * Keeps every element of `s` whose position, counting from `k`, differs from `index`:
   * the list filter the page runs, one element at a time.
   */
  function FilterOutFrom<T>(s: seq<T>, index: int, k: int): (r: seq<T>)
    ensures r == if k <= index < k + |s| then s[..index - k] + s[index - k + 1..] else s
    decreases |s|
  {
    if s == [] then []
    else
      var rest := FilterOutFrom(s[1..], index, k + 1);
      assert k < index < k + |s| ==> s[..index - k] == [s[0]] + s[1..][..index - k - 1];
      (if k == index then [] else [s[0]]) + rest
  }

  /** `s` without the element at `index`; unchanged when `index` is not a position of `s`. */
  function RemoveAt<T>(s: seq<T>, index: int): (r: seq<T>)
    ensures 0 <= index < |s| ==> |r| == |s| - 1 && r == s[..index] + s[index + 1..]
    ensures !(0 <= index < |s|) ==> r == s
  {
    FilterOutFrom(s, index, 0)
  }

  /** Every element that survives a removal keeps its order: the survivors are `s` with one gap. */
  lemma RemoveAtKeepsOrder<T>(s: seq<T>, index: int, j: int)
    requires 0 <= index < |s| && 0 <= j < |s| - 1
    ensures RemoveAt(s, index)[j] == if j < index then s[j] else s[j + 1]
  {
  }

  // ---------------------------------------------------------------------------
  // Marketplaces

  function AddMarketplace(d: SiteData): (r: SiteData)
    ensures |r.marketplaces| == |d.marketplaces| + 1
    ensures r.marketplaces[..|d.marketplaces|] == d.marketplaces
    ensures r.marketplaces[|d.marketplaces|] == BlankMarketplace
    ensures r.(marketplaces := d.marketplaces) == d
  {
    d.(marketplaces := d.marketplaces + [BlankMarketplace])
  }

  function RemoveMarketplace(d: SiteData, index: int): (r: SiteData)
    ensures r.(marketplaces := d.marketplaces) == d
    ensures 0 <= index < |d.marketplaces| ==>
              |r.marketplaces| == |d.marketplaces| - 1 &&
              r.marketplaces == d.marketplaces[..index] + d.marketplaces[index + 1..]
    ensures !(0 <= index < |d.marketplaces|) ==> r == d
  {
    d.(marketplaces := RemoveAt(d.marketplaces, index))
  }

  /** Removing the entry that was just appended gives back the original document. */
  lemma RemoveMarketplaceUndoesAdd(d: SiteData)
    ensures RemoveMarketplace(AddMarketplace(d), |d.marketplaces|) == d
  {
  }

  function SetMarketplaceField(d: SiteData, index: int, f: MarketplaceField, v: string): (r: SiteData)
    requires 0 <= index < |d.marketplaces|
    ensures |r.marketplaces| == |d.marketplaces|
    ensures MarketplaceGet(r.marketplaces[index], f) == v
    ensures forall g :: g != f ==>
              MarketplaceGet(r.marketplaces[index], g) == MarketplaceGet(d.marketplaces[index], g)
    ensures forall j :: 0 <= j < |d.marketplaces| && j != index ==> r.marketplaces[j] == d.marketplaces[j]
    ensures r.(marketplaces := d.marketplaces) == d
  {
    d.(marketplaces := d.marketplaces[index := MarketplaceSet(d.marketplaces[index], f, v)])
  }

  // ---------------------------------------------------------------------------
  // Categories. Removing a category leaves its offer list in place.

  function AddCategory(d: SiteData): (r: SiteData)
    ensures |r.categories| == |d.categories| + 1
    ensures r.categories[..|d.categories|] == d.categories
    ensures r.categories[|d.categories|] == BlankCategory
    ensures r.(categories := d.categories) == d
  {
    d.(categories := d.categories + [BlankCategory])
  }

  function RemoveCategory(d: SiteData, index: int): (r: SiteData)
    ensures r.(categories := d.categories) == d
    ensures 0 <= index < |d.categories| ==>
              |r.categories| == |d.categories| - 1 &&
              r.categories == d.categories[..index] + d.categories[index + 1..]
    ensures !(0 <= index < |d.categories|) ==> r == d
  {
    d.(categories := RemoveAt(d.categories, index))
  }

  lemma RemoveCategoryUndoesAdd(d: SiteData)
    ensures RemoveCategory(AddCategory(d), |d.categories|) == d
  {
  }

  /**
   * Removing the only category with a given slug leaves that slug's offers behind:
   * the key stays in `offers` while no category refers to it.
   */
  lemma RemoveCategoryOrphansOffers(d: SiteData, index: int)
    requires 0 <= index < |d.categories|
    requires d.categories[index].slug in d.offers
    requires forall j :: 0 <= j < |d.categories| && j != index ==> d.categories[j].slug != d.categories[index].slug
    ensures var r := RemoveCategory(d, index);
            var s := d.categories[index].slug;
            s in r.offers && r.offers[s] == d.offers[s] && s !in CategorySlugs(r.categories)
  {
    var r := RemoveCategory(d, index);
    var s := d.categories[index].slug;
    if s in CategorySlugs(r.categories) {
      var i :| 0 <= i < |r.categories| && r.categories[i].slug == s;
      RemoveAtKeepsOrder(d.categories, index, i);
      assert false;
    }
  }

  function SetCategoryField(d: SiteData, index: int, f: CategoryField, v: string): (r: SiteData)
    requires 0 <= index < |d.categories|
    ensures |r.categories| == |d.categories|
    ensures CategoryGet(r.categories[index], f) == v
    ensures forall g :: g != f ==>
              CategoryGet(r.categories[index], g) == CategoryGet(d.categories[index], g)
    ensures forall j :: 0 <= j < |d.categories| && j != index ==> r.categories[j] == d.categories[j]
    ensures r.(categories := d.categories) == d
  {
    d.(categories := d.categories[index := CategorySet(d.categories[index], f, v)])
  }

  // ---------------------------------------------------------------------------
  // Offers. `addOffer` spreads `prev.offers[category]`, which throws for a missing key;
  // AddOffer is that code, defined where it does not throw. AddOfferOrCreate treats a
  // missing list as empty, the behaviour the rest of the page assumes.

  function AddOffer(d: SiteData, category: string): (r: SiteData)
    requires category in d.offers
    ensures r.offers.Keys == d.offers.Keys
    ensures r.offers[category] == d.offers[category] + [BlankOffer]
    ensures forall c :: c in d.offers && c != category ==> r.offers[c] == d.offers[c]
    ensures r.(offers := d.offers) == d
  {
    d.(offers := d.offers[category := d.offers[category] + [BlankOffer]])
  }

  /** The offers of one category, an absent key read as no offers. */
  function OffersOf(d: SiteData, category: string): (r: seq<Offer>)
    ensures category in d.offers ==> r == d.offers[category]
    ensures category !in d.offers ==> r == []
  {
    if category in d.offers then d.offers[category] else []
  }

  function AddOfferOrCreate(d: SiteData, category: string): (r: SiteData)
    ensures r.offers.Keys == d.offers.Keys + {category}
    ensures r.offers[category] == OffersOf(d, category) + [BlankOffer]
    ensures |r.offers[category]| == |OffersOf(d, category)| + 1
    ensures forall c :: c in d.offers && c != category ==> r.offers[c] == d.offers[c]
    ensures r.(offers := d.offers) == d
  {
    d.(offers := d.offers[category := OffersOf(d, category) + [BlankOffer]])
  }

  /** On every input where the written `addOffer` does not throw, the corrected one agrees with it. */
  lemma AddOfferOrCreateAgrees(d: SiteData, category: string)
    requires category in d.offers
    ensures AddOfferOrCreate(d, category) == AddOffer(d, category)
  {
  }

  /**
   * The written `addOffer` is reachable outside its domain: right after "add category" the
   * new category's slug is "" and, unless "" already has offers, the offers tab shows an
   * "add offer" button for a key that `offers` does not hold.
   */
  lemma AddOfferAfterAddCategoryMissesKey(d: SiteData)
    requires "" !in d.offers
    ensures var r := AddCategory(d);
            r.categories[|r.categories| - 1].slug == "" && r.categories[|r.categories| - 1].slug !in r.offers
  {
  }

  function RemoveOffer(d: SiteData, category: string, index: int): (r: SiteData)
    requires category in d.offers
    ensures r.offers.Keys == d.offers.Keys
    ensures forall c :: c in d.offers && c != category ==> r.offers[c] == d.offers[c]
    ensures r.(offers := d.offers) == d
    ensures 0 <= index < |d.offers[category]| ==>
              |r.offers[category]| == |d.offers[category]| - 1 &&
              r.offers[category] == d.offers[category][..index] + d.offers[category][index + 1..]
    ensures !(0 <= index < |d.offers[category]|) ==> r == d
  {
    d.(offers := d.offers[category := RemoveAt(d.offers[category], index)])
  }

  lemma RemoveOfferUndoesAdd(d: SiteData, category: string)
    requires category in d.offers
    ensures RemoveOffer(AddOffer(d, category), category, |d.offers[category]|) == d
  {
    var r := RemoveOffer(AddOffer(d, category), category, |d.offers[category]|);
    assert r.offers[category] == d.offers[category];
    assert r.offers == d.offers;
  }

  function SetOfferField(d: SiteData, category: string, index: int, f: OfferField, v: string): (r: SiteData)
    requires category in d.offers && 0 <= index < |d.offers[category]|
    ensures r.offers.Keys == d.offers.Keys
    ensures |r.offers[category]| == |d.offers[category]|
    ensures OfferGet(r.offers[category][index], f) == v
    ensures forall g :: g != f ==>
              OfferGet(r.offers[category][index], g) == OfferGet(d.offers[category][index], g)
    ensures forall j :: 0 <= j < |d.offers[category]| && j != index ==>
              r.offers[category][j] == d.offers[category][j]
    ensures forall c :: c in d.offers && c != category ==> r.offers[c] == d.offers[c]
    ensures r.(offers := d.offers) == d
  {
    var list := d.offers[category];
    d.(offers := d.offers[category := list[index := OfferSet(list[index], f, v)]])
  }

  // ---------------------------------------------------------------------------
  // Hero, social links and disclaimer

  function SetHeroField(d: SiteData, f: HeroField, v: string): (r: SiteData)
    ensures HeroGet(r.hero, f) == v
    ensures forall g :: g != f ==> HeroGet(r.hero, g) == HeroGet(d.hero, g)
    ensures r.(hero := d.hero) == d
  {
    d.(hero := HeroSet(d.hero, f, v))
  }

  function SetSocialField(d: SiteData, f: SocialField, v: string): (r: SiteData)
    ensures SocialGet(r.social, f) == v
    ensures forall g :: g != f ==> SocialGet(r.social, g) == SocialGet(d.social, g)
    ensures r.(social := d.social) == d
  {
    d.(social := SocialSet(d.social, f, v))
  }

  function SetDisclaimer(d: SiteData, v: string): (r: SiteData)
    ensures r.disclaimer == v
    ensures r.(disclaimer := d.disclaimer) == d
  {
    d.(disclaimer := v)
  }

  // ---------------------------------------------------------------------------
  // Every text field of the document has an address. A field edit is a point update:
  // the addressed field reads back the new value, every other address reads back what
  // it held, and the shape (list lengths and offer keys) stays. Since a document is
  // determined by its shape and its fields, nothing else can have changed.

  datatype Path =
    | HeroAt(hf: HeroField)
    | MarketplaceAt(mi: int, mf: MarketplaceField)
    | CategoryAt(ci: int, cf: CategoryField)
    | OfferAt(slug: string, oi: int, of: OfferField)
    | SocialAt(sf: SocialField)
    | DisclaimerAt

  /** The text at `p`, or None when `p` names no field of `d`. */
  function Lookup(d: SiteData, p: Path): Option<string>
  {
    match p
    case HeroAt(f) => Some(HeroGet(d.hero, f))
    case MarketplaceAt(i, f) =>
      if 0 <= i < |d.marketplaces| then Some(MarketplaceGet(d.marketplaces[i], f)) else None
    case CategoryAt(i, f) =>
      if 0 <= i < |d.categories| then Some(CategoryGet(d.categories[i], f)) else None
    case OfferAt(c, i, f) =>
      if c in d.offers && 0 <= i < |d.offers[c]| then Some(OfferGet(d.offers[c][i], f)) else None
    case SocialAt(f) => Some(SocialGet(d.social, f))
    case DisclaimerAt => Some(d.disclaimer)
  }

  /** The shape of a document: list lengths and, for each offer key, its list's length. */
  function Shape(d: SiteData): (nat, nat, map<string, nat>)
  {
    (|d.marketplaces|, |d.categories|, map c | c in d.offers :: |d.offers[c]|)
  }

  /** The field edit the admin page performs for the input bound to `p`. */
  function Edit(d: SiteData, p: Path, v: string): (r: SiteData)
    requires Lookup(d, p).Some?
    ensures Lookup(r, p) == Some(v)
  {
    match p
    case HeroAt(f) => SetHeroField(d, f, v)
    case MarketplaceAt(i, f) => SetMarketplaceField(d, i, f, v)
    case CategoryAt(i, f) => SetCategoryField(d, i, f, v)
    case OfferAt(c, i, f) => SetOfferField(d, c, i, f, v)
    case SocialAt(f) => SetSocialField(d, f, v)
    case DisclaimerAt => SetDisclaimer(d, v)
  }

  lemma EditKeepsShape(d: SiteData, p: Path, v: string)
    requires Lookup(d, p).Some?
    ensures Shape(Edit(d, p, v)) == Shape(d)
  {
    var r := Edit(d, p, v);
    if p.OfferAt? {
      assert r.offers.Keys == d.offers.Keys;
      assert forall c :: c in d.offers ==> |r.offers[c]| == |d.offers[c]|;
      assert (map c | c in r.offers :: |r.offers[c]|) == (map c | c in d.offers :: |d.offers[c]|);
    } else {
      assert r.offers == d.offers;
    }
  }

  lemma EditIsPointUpdate(d: SiteData, p: Path, q: Path, v: string)
    requires Lookup(d, p).Some?
    ensures Lookup(Edit(d, p, v), q) == if q == p then Some(v) else Lookup(d, q)
  {
    var r := Edit(d, p, v);
    match q
    case OfferAt(c, i, f) =>
      if p.OfferAt? && c == p.slug && i != p.oi {
        assert c in r.offers <==> c in d.offers;
      }
    case _ =>
  }

  /** A document is determined by its shape and the text at every address. */
  lemma DocumentExtensional(a: SiteData, b: SiteData)
    requires Shape(a) == Shape(b)
    requires forall q :: Lookup(a, q) == Lookup(b, q)
    ensures a == b
  {
    forall g ensures HeroGet(a.hero, g) == HeroGet(b.hero, g) {
      assert Lookup(a, HeroAt(g)) == Lookup(b, HeroAt(g));
    }
    HeroExtensional(a.hero, b.hero);
    forall g ensures SocialGet(a.social, g) == SocialGet(b.social, g) {
      assert Lookup(a, SocialAt(g)) == Lookup(b, SocialAt(g));
    }
    SocialExtensional(a.social, b.social);
    assert Lookup(a, DisclaimerAt) == Lookup(b, DisclaimerAt);
    forall i | 0 <= i < |a.marketplaces| ensures a.marketplaces[i] == b.marketplaces[i] {
      forall g ensures MarketplaceGet(a.marketplaces[i], g) == MarketplaceGet(b.marketplaces[i], g) {
        assert Lookup(a, MarketplaceAt(i, g)) == Lookup(b, MarketplaceAt(i, g));
      }
      MarketplaceExtensional(a.marketplaces[i], b.marketplaces[i]);
    }
    forall i | 0 <= i < |a.categories| ensures a.categories[i] == b.categories[i] {
      forall g ensures CategoryGet(a.categories[i], g) == CategoryGet(b.categories[i], g) {
        assert Lookup(a, CategoryAt(i, g)) == Lookup(b, CategoryAt(i, g));
      }
      CategoryExtensional(a.categories[i], b.categories[i]);
    }
    assert a.offers.Keys == Shape(a).2.Keys == Shape(b).2.Keys == b.offers.Keys;
    forall c | c in a.offers ensures a.offers[c] == b.offers[c] {
      assert |a.offers[c]| == Shape(a).2[c] == Shape(b).2[c] == |b.offers[c]|;
      forall i | 0 <= i < |a.offers[c]| ensures a.offers[c][i] == b.offers[c][i] {
        forall g ensures OfferGet(a.offers[c][i], g) == OfferGet(b.offers[c][i], g) {
          assert Lookup(a, OfferAt(c, i, g)) == Lookup(b, OfferAt(c, i, g));
        }
        OfferExtensional(a.offers[c][i], b.offers[c][i]);
      }
    }
  }

  /** Writing back the value a field already holds leaves the document as it was. */
  lemma EditSameValueIsIdentity(d: SiteData, p: Path)
    requires Lookup(d, p).Some?
    ensures Edit(d, p, Lookup(d, p).value) == d
  {
    var r := Edit(d, p, Lookup(d, p).value);
    EditKeepsShape(d, p, Lookup(d, p).value);
    forall q ensures Lookup(r, q) == Lookup(d, q) {
      EditIsPointUpdate(d, p, q, Lookup(d, p).value);
    }
    DocumentExtensional(r, d);
  }

  /** Of two edits to the same field, the later one wins. */
  lemma EditTwiceLastWins(d: SiteData, p: Path, v: string, w: string)
    requires Lookup(d, p).Some?
    ensures Lookup(Edit(d, p, v), p).Some?
    ensures Edit(Edit(d, p, v), p, w) == Edit(d, p, w)
  {
    var d1 := Edit(d, p, v);
    EditIsPointUpdate(d, p, p, v);
    var a := Edit(d1, p, w);
    var b := Edit(d, p, w);
    EditKeepsShape(d, p, v);
    EditKeepsShape(d1, p, w);
    EditKeepsShape(d, p, w);
    forall q ensures Lookup(a, q) == Lookup(b, q) {
      EditIsPointUpdate(d1, p, q, w);
      EditIsPointUpdate(d, p, q, v);
      EditIsPointUpdate(d, p, q, w);
    }
    DocumentExtensional(a, b);
  }
}
