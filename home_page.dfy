/**
 * What the home page derives from the document: its built-in default, the document it
 * shows after loading, the links to category and marketplace pages, and the featured
 * offers. All of it is pure; the page's one state change is adopting the loaded document.
 */
module Home {
  import opened Wrappers
  import opened SiteContent
  import opened Store

  const SampleOffer := Offer(
    "Smartphone Samsung Galaxy",
    "https://images.unsplash.com/photo-1511707171634-5f897ff02aa9?w=400&h=300&fit=crop",
    "Últimos modelos com desconto especial",
    "https://exemplo.com/smartphone")

  /** The home page's built-in document: as the admin one, except that 'tecnologia' holds one offer. */
  const HomeDefault := SiteData(
    DefaultHero,
    DefaultMarketplaces,
    DefaultCategories,
    map["tecnologia" := [SampleOffer], "casa-jardim" := [], "moda" := [], "bebes" := [], "games" := [], "beleza" := []],
    DefaultSocial,
    DefaultDisclaimer)

  /** The facts about the home default document that the page relies on. */
  lemma HomeDefaultShape()
    ensures |HomeDefault.marketplaces| == 6 && |HomeDefault.categories| == 6
    ensures HomeDefault.offers.Keys == CategorySlugs(HomeDefault.categories)
    ensures HomeDefault.offers["tecnologia"] == [SampleOffer]
    ensures forall c :: c in HomeDefault.offers && c != "tecnologia" ==> HomeDefault.offers[c] == []
  {
    var cs := HomeDefault.categories;
    assert cs[0].slug == "tecnologia" && cs[1].slug == "casa-jardim" && cs[2].slug == "moda";
    assert cs[3].slug == "bebes" && cs[4].slug == "games" && cs[5].slug == "beleza";
  }

  /** The document the home page shows once its mount effect has read `siteData`. */
  function InitialData(saved: Option<Parsed>): (r: SiteData)
    ensures saved == None ==> r == HomeDefault
    ensures saved == Some(Malformed) ==> r == HomeDefault
    ensures saved.Some? && saved.value.Parsed? ==> r == saved.value.doc
  {
    LoadFallback(HomeDefault, saved)
  }

  /** What the admin page saves is what the home page shows on its next load. */
  lemma HomeSeesSavedDocument(s: Storage, d: SiteData)
    ensures InitialData(Save(s, d).siteData) == d
  {
  }

  // ---------------------------------------------------------------------------
  // Marketplace route slug: `name.toLowerCase().replace(/\s+/g, '-')`, over ASCII.

  predicate IsSpace(c: char)
  {
    c == ' ' || c == '\t' || c == '\n' || c == '\r' || c == '\U{B}' || c == '\U{C}'
  }

  predicate IsUpper(c: char)
  {
    'A' <= c <= 'Z'
  }

  predicate NoSpace(s: string)
  {
    forall i :: 0 <= i < |s| ==> !IsSpace(s[i])
  }

  predicate NoUpper(s: string)
  {
    forall i :: 0 <= i < |s| ==> !IsUpper(s[i])
  }

  predicate AllSpace(s: string)
  {
    forall i :: 0 <= i < |s| ==> IsSpace(s[i])
  }

  function LowerChar(c: char): (r: char)
    ensures IsUpper(c) ==> r as int == c as int + 32
    ensures !IsUpper(c) ==> r == c
    ensures !IsUpper(r)
    ensures IsSpace(r) <==> IsSpace(c)
  {
    if IsUpper(c) then (c as int + 32) as char else c
  }

  /** `toLowerCase` on ASCII letters. */
  function Lower(s: string): (r: string)
    ensures |r| == |s|
  {
    seq(|s|, i requires 0 <= i < |s| => LowerChar(s[i]))
  }

  /** The text after the run of whitespace that starts `s`. */
  function SkipSpaces(s: string): (r: string)
    ensures |r| <= |s|
    ensures r == [] || !IsSpace(r[0])
  {
    if s != [] && IsSpace(s[0]) then SkipSpaces(s[1..]) else s
  }

  /** `replace(/\s+/g, '-')`: every maximal run of whitespace becomes a single '-'. */
  function CollapseSpaces(s: string): (r: string)
    ensures |r| <= |s|
    ensures r == [] <==> s == []
    decreases |s|
  {
    if s == [] then []
    else if IsSpace(s[0]) then "-" + CollapseSpaces(SkipSpaces(s[1..]))
    else [s[0]] + CollapseSpaces(s[1..])
  }

  /** The marketplace route segment: lower-case, then collapse whitespace runs. */
  function Slug(name: string): (r: string)
    ensures NoSpace(r) && NoUpper(r)
  {
    LowerKeepsPositions(name);
    CollapseRemovesSpaces(Lower(name));
    CollapseKeepsCase(Lower(name));
    CollapseSpaces(Lower(name))
  }

  lemma LowerKeepsPositions(s: string)
    ensures forall i :: 0 <= i < |s| ==> Lower(s)[i] == LowerChar(s[i])
    ensures NoUpper(Lower(s))
  {
  }

  lemma LowerAppend(a: string, b: string)
    ensures Lower(a + b) == Lower(a) + Lower(b)
  {
  }

  lemma LowerIdentity(s: string)
    requires NoUpper(s)
    ensures Lower(s) == s
  {
  }

  lemma {:induction false} SkipSpacesDropsRun(s: string)
    ensures AllSpace(s[..|s| - |SkipSpaces(s)|])
    ensures SkipSpaces(s) == s[|s| - |SkipSpaces(s)|..]
  {
    if s != [] && IsSpace(s[0]) {
      SkipSpacesDropsRun(s[1..]);
    }
  }

  lemma {:induction false} CollapseRemovesSpaces(s: string)
    ensures NoSpace(CollapseSpaces(s))
    decreases |s|
  {
    if s != [] {
      if IsSpace(s[0]) {
        CollapseRemovesSpaces(SkipSpaces(s[1..]));
      } else {
        CollapseRemovesSpaces(s[1..]);
      }
    }
  }

  /** Collapsing introduces no upper-case letter: it only keeps characters or writes '-'. */
  lemma {:induction false} CollapseKeepsCase(s: string)
    requires NoUpper(s)
    ensures NoUpper(CollapseSpaces(s))
    decreases |s|
  {
    if s != [] {
      if IsSpace(s[0]) {
        var t := SkipSpaces(s[1..]);
        SkipSpacesDropsRun(s[1..]);
        assert forall i :: 0 <= i < |t| ==> t[i] == s[1..][|s[1..]| - |t| + i];
        CollapseKeepsCase(t);
      } else {
        CollapseKeepsCase(s[1..]);
      }
    }
  }

  lemma {:induction false} CollapseIdentity(s: string)
    requires NoSpace(s)
    ensures CollapseSpaces(s) == s
  {
    if s != [] {
      assert !IsSpace(s[0]);
      CollapseIdentity(s[1..]);
    }
  }

  lemma {:induction false} SkipRun(run: string, rest: string)
    requires AllSpace(run)
    requires rest == [] || !IsSpace(rest[0])
    ensures SkipSpaces(run + rest) == rest
  {
    if run != [] {
      assert (run + rest)[1..] == run[1..] + rest;
      SkipRun(run[1..], rest);
    } else {
      assert run + rest == rest;
    }
  }

  /**
   * Text without whitespace, then a non-empty whitespace run, then text that does not
   * start with whitespace: the run becomes exactly one '-'. With CollapseIdentity this
   * pins down CollapseSpaces on every input.
   */
  lemma {:induction false} CollapseRun(w: string, run: string, rest: string)
    requires NoSpace(w) && |run| > 0 && AllSpace(run)
    requires rest == [] || !IsSpace(rest[0])
    ensures CollapseSpaces(w + run + rest) == w + "-" + CollapseSpaces(rest)
  {
    if w == [] {
      assert w + run + rest == run + rest;
      SkipRun(run[1..], rest);
      assert (run + rest)[1..] == run[1..] + rest;
    } else {
      assert (w + run + rest)[1..] == w[1..] + run + rest;
      CollapseRun(w[1..], run, rest);
      assert w + "-" + CollapseSpaces(rest) == [w[0]] + (w[1..] + "-" + CollapseSpaces(rest));
    }
  }

  /** Applying the slug to a slug changes nothing. */
  lemma SlugIdempotent(name: string)
    ensures Slug(Slug(name)) == Slug(name)
  {
    var s := Slug(name);
    LowerIdentity(s);
    CollapseIdentity(s);
  }

  /** A name without whitespace is only lower-cased. */
  lemma SlugOfWord(w: string)
    requires NoSpace(w)
    ensures Slug(w) == Lower(w)
  {
    LowerKeepsPositions(w);
    CollapseIdentity(Lower(w));
  }

  /** Two words joined by any whitespace run give the lower-cased words joined by one '-'. */
  lemma SlugOfTwoWords(a: string, run: string, b: string)
    requires NoSpace(a) && NoSpace(b) && |run| > 0 && AllSpace(run)
    ensures Slug(a + run + b) == Lower(a) + "-" + Lower(b)
  {
    LowerAppend(a + run, b);
    LowerAppend(a, run);
    LowerKeepsPositions(a);
    LowerKeepsPositions(run);
    LowerKeepsPositions(b);
    CollapseRun(Lower(a), Lower(run), Lower(b));
    CollapseIdentity(Lower(b));
  }

  /** `SlugOfTwoWords` for a name already known to split as `a + run + b`, with the lower-cased words given. */
  lemma SlugOfSplitName(name: string, a: string, run: string, b: string, la: string, lb: string)
    requires name == a + run + b
    requires NoSpace(a) && NoSpace(b) && |run| > 0 && AllSpace(run)
    requires Lower(a) == la && Lower(b) == lb
    ensures Slug(name) == la + "-" + lb
  {
    SlugOfTwoWords(a, run, b);
  }

  lemma WordAmazon()
    ensures NoSpace("Amazon") && Lower("Amazon") == "amazon"
  {
  }

  lemma SlugAmazon()
    ensures Slug("Amazon") == "amazon"
  {
    WordAmazon();
    SlugOfWord("Amazon");
  }

  lemma SplitMercadoLivre()
    ensures "Mercado Livre" == "Mercado" + " " + "Livre"
    ensures NoSpace("Mercado") && NoSpace("Livre") && AllSpace(" ")
    ensures Lower("Mercado") == "mercado" && Lower("Livre") == "livre"
  {
  }

  lemma SlugMercadoLivre()
    ensures Slug("Mercado Livre") == "mercado-livre"
  {
    SplitMercadoLivre();
    SlugOfSplitName("Mercado Livre", "Mercado", " ", "Livre", "mercado", "livre");
  }

  lemma SplitMagazineLuiza()
    ensures "Magazine Luiza" == "Magazine" + " " + "Luiza"
    ensures NoSpace("Magazine") && NoSpace("Luiza") && AllSpace(" ")
    ensures Lower("Magazine") == "magazine" && Lower("Luiza") == "luiza"
  {
  }

  lemma SlugMagazineLuiza()
    ensures Slug("Magazine Luiza") == "magazine-luiza"
  {
    SplitMagazineLuiza();
    SlugOfSplitName("Magazine Luiza", "Magazine", " ", "Luiza", "magazine", "luiza");
  }

  lemma WordAmericanas()
    ensures NoSpace("Americanas") && Lower("Americanas") == "americanas"
  {
  }

  lemma SlugAmericanas()
    ensures Slug("Americanas") == "americanas"
  {
    WordAmericanas();
    SlugOfWord("Americanas");
  }

  lemma WordShopee()
    ensures NoSpace("Shopee") && Lower("Shopee") == "shopee"
  {
  }

  lemma SlugShopee()
    ensures Slug("Shopee") == "shopee"
  {
    WordShopee();
    SlugOfWord("Shopee");
  }

  lemma WordAliExpress()
    ensures NoSpace("AliExpress") && Lower("AliExpress") == "aliexpress"
  {
  }

  lemma SlugAliExpress()
    ensures Slug("AliExpress") == "aliexpress"
  {
    WordAliExpress();
    SlugOfWord("AliExpress");
  }

  lemma SplitDoubleSpace()
    ensures "mercado  livre" == "mercado" + "  " + "livre"
    ensures NoSpace("mercado") && NoSpace("livre") && AllSpace("  ")
    ensures Lower("mercado") == "mercado" && Lower("livre") == "livre"
  {
  }

  lemma SlugDoubleSpace()
    ensures Slug("mercado  livre") == "mercado-livre"
  {
    SplitDoubleSpace();
    SlugOfSplitName("mercado  livre", "mercado", "  ", "livre", "mercado", "livre");
  }

  lemma SplitUpperTab()
    ensures "MERCADO\tLIVRE" == "MERCADO" + "\t" + "LIVRE"
    ensures NoSpace("MERCADO") && NoSpace("LIVRE") && AllSpace("\t")
    ensures Lower("MERCADO") == "mercado" && Lower("LIVRE") == "livre"
  {
  }

  lemma SlugUpperTab()
    ensures Slug("MERCADO\tLIVRE") == "mercado-livre"
  {
    SplitUpperTab();
    SlugOfSplitName("MERCADO\tLIVRE", "MERCADO", "\t", "LIVRE", "mercado", "livre");
  }

  /** The six default marketplaces route to these segments. */
  lemma DefaultMarketplaceSlugs()
    ensures Slug(DefaultMarketplaces[0].name) == "amazon"
    ensures Slug(DefaultMarketplaces[1].name) == "mercado-livre"
    ensures Slug(DefaultMarketplaces[2].name) == "magazine-luiza"
    ensures Slug(DefaultMarketplaces[3].name) == "americanas"
    ensures Slug(DefaultMarketplaces[4].name) == "shopee"
    ensures Slug(DefaultMarketplaces[5].name) == "aliexpress"
  {
    SlugAmazon();
    SlugMercadoLivre();
    SlugMagazineLuiza();
    SlugAmericanas();
    SlugShopee();
    SlugAliExpress();
  }

  /**
   * Route slugs are not unique: names that differ in case or in the length of a space run
   * lead to the same marketplace page.
   */
  lemma SlugIgnoresCaseAndSpacing()
    ensures Slug("Mercado Livre") == Slug("mercado  livre") == Slug("MERCADO\tLIVRE")
  {
    SlugMercadoLivre();
    SlugDoubleSpace();
    SlugUpperTab();
  }

  // ---------------------------------------------------------------------------
  // Links

  const MarketplacePrefix := "/marketplace/"

  const CategoryPrefix := "/categoria/"

  /** The marketplace link is built from the name, so it is route-safe whatever name was typed. */
  function MarketplaceHref(m: Marketplace): (r: string)
    ensures |r| >= |MarketplacePrefix| && r[..|MarketplacePrefix|] == MarketplacePrefix
    ensures r[|MarketplacePrefix|..] == Slug(m.name)
    ensures NoSpace(r[|MarketplacePrefix|..]) && NoUpper(r[|MarketplacePrefix|..])
  {
    MarketplacePrefix + Slug(m.name)
  }

  /** The category link carries the stored slug verbatim. */
  function CategoryHref(c: Category): (r: string)
    ensures |r| == |CategoryPrefix| + |c.slug|
    ensures r[..|CategoryPrefix|] == CategoryPrefix
    ensures r[|CategoryPrefix|..] == c.slug
  {
    CategoryPrefix + c.slug
  }

  /** Two categories link to the same page exactly when their stored slugs are equal; name and icon play no part. */
  lemma CategoryHrefOnlySlug(a: Category, b: Category)
    ensures CategoryHref(a) == CategoryHref(b) <==> a.slug == b.slug
  {
    if CategoryHref(a) == CategoryHref(b) {
      assert a.slug == CategoryHref(a)[|CategoryPrefix|..];
    }
  }

  // ---------------------------------------------------------------------------
  // Featured offers

  /** JavaScript's `s.slice(0, n)` for n >= 0. */
  function Take<T>(s: seq<T>, n: nat): (r: seq<T>)
    ensures |r| == if |s| < n then |s| else n
    ensures forall k :: 0 <= k < |r| ==> r[k] == s[k]
  {
    if |s| < n then s else s[..n]
  }

  /**
   * The "featured offers" block: shown only when 'tecnologia' has offers, and then the
   * first three of them (all of them when there are fewer), in order.
   */
  function Featured(d: SiteData): (r: Option<seq<Offer>>)
    ensures r.Some? <==> "tecnologia" in d.offers && |d.offers["tecnologia"]| > 0
    ensures r.Some? ==> 0 < |r.value| <= 3 && |r.value| <= |d.offers["tecnologia"]|
    ensures r.Some? ==> r.value == d.offers["tecnologia"][..|r.value|]
    ensures r.Some? && |d.offers["tecnologia"]| >= 3 ==> |r.value| == 3
    ensures r.Some? && |d.offers["tecnologia"]| < 3 ==> r.value == d.offers["tecnologia"]
  {
    if "tecnologia" in d.offers && |d.offers["tecnologia"]| > 0 then
      Some(Take(d.offers["tecnologia"], 3))
    else
      None
  }

  /** The home default features its one sample offer. */
  lemma FeaturedOnHomeDefault()
    ensures Featured(HomeDefault) == Some([SampleOffer])
  {
  }
}
