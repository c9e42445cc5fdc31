/**
 * The site-content document (`SiteData`) that every page reads and the admin page edits:
 * hero text, the ordered marketplace and category lists, the offers of each category,
 * social links and the affiliate disclaimer. Each record has a field selector type with a
 * getter and a setter, so that "only this field changes" can be stated once per record.
 */
module SiteContent {

  datatype Hero = Hero(title: string, subtitle: string, ctaText: string)

  datatype Marketplace = Marketplace(name: string, affiliateUrl: string, icon: string)

  datatype Category = Category(name: string, slug: string, icon: string)

  datatype Offer = Offer(title: string, image: string, description: string, affiliateUrl: string)

  datatype Social = Social(instagram: string, tiktok: string, youtube: string)

  /** The whole document; `offers` maps a category slug to that category's offers, in order. */
  datatype SiteData = SiteData(
    hero: Hero,
    marketplaces: seq<Marketplace>,
    categories: seq<Category>,
    offers: map<string, seq<Offer>>,
    social: Social,
    disclaimer: string)

  datatype HeroField = Title | Subtitle | CtaText

  datatype MarketplaceField = MarketplaceName | MarketplaceUrl | MarketplaceIcon

  datatype CategoryField = CategoryName | CategorySlug | CategoryIcon

  datatype OfferField = OfferTitle | OfferImage | OfferDescription | OfferUrl

  datatype SocialField = Instagram | TikTok | YouTube

  // ---------------------------------------------------------------------------
  // Field access. Each setter obeys the get/set laws: the chosen field reads back the
  // new value and every other field reads back what it held before.

  function HeroGet(h: Hero, f: HeroField): string
  {
    match f
    case Title => h.title
    case Subtitle => h.subtitle
    case CtaText => h.ctaText
  }

  function HeroSet(h: Hero, f: HeroField, v: string): (r: Hero)
    ensures HeroGet(r, f) == v
    ensures forall g :: g != f ==> HeroGet(r, g) == HeroGet(h, g)
  {
    match f
    case Title => h.(title := v)
    case Subtitle => h.(subtitle := v)
    case CtaText => h.(ctaText := v)
  }

  /** Two hero records that agree on every field are the same record. */
  lemma HeroExtensional(a: Hero, b: Hero)
    requires forall g :: HeroGet(a, g) == HeroGet(b, g)
    ensures a == b
  {
    assert HeroGet(a, Title) == HeroGet(b, Title);
    assert HeroGet(a, Subtitle) == HeroGet(b, Subtitle);
    assert HeroGet(a, CtaText) == HeroGet(b, CtaText);
  }

  function MarketplaceGet(m: Marketplace, f: MarketplaceField): string
  {
    match f
    case MarketplaceName => m.name
    case MarketplaceUrl => m.affiliateUrl
    case MarketplaceIcon => m.icon
  }

  function MarketplaceSet(m: Marketplace, f: MarketplaceField, v: string): (r: Marketplace)
    ensures MarketplaceGet(r, f) == v
    ensures forall g :: g != f ==> MarketplaceGet(r, g) == MarketplaceGet(m, g)
  {
    match f
    case MarketplaceName => m.(name := v)
    case MarketplaceUrl => m.(affiliateUrl := v)
    case MarketplaceIcon => m.(icon := v)
  }

  lemma MarketplaceExtensional(a: Marketplace, b: Marketplace)
    requires forall g :: MarketplaceGet(a, g) == MarketplaceGet(b, g)
    ensures a == b
  {
    assert MarketplaceGet(a, MarketplaceName) == MarketplaceGet(b, MarketplaceName);
    assert MarketplaceGet(a, MarketplaceUrl) == MarketplaceGet(b, MarketplaceUrl);
    assert MarketplaceGet(a, MarketplaceIcon) == MarketplaceGet(b, MarketplaceIcon);
  }

  function CategoryGet(c: Category, f: CategoryField): string
  {
    match f
    case CategoryName => c.name
    case CategorySlug => c.slug
    case CategoryIcon => c.icon
  }

  function CategorySet(c: Category, f: CategoryField, v: string): (r: Category)
    ensures CategoryGet(r, f) == v
    ensures forall g :: g != f ==> CategoryGet(r, g) == CategoryGet(c, g)
  {
    match f
    case CategoryName => c.(name := v)
    case CategorySlug => c.(slug := v)
    case CategoryIcon => c.(icon := v)
  }

  lemma CategoryExtensional(a: Category, b: Category)
    requires forall g :: CategoryGet(a, g) == CategoryGet(b, g)
    ensures a == b
  {
    assert CategoryGet(a, CategoryName) == CategoryGet(b, CategoryName);
    assert CategoryGet(a, CategorySlug) == CategoryGet(b, CategorySlug);
    assert CategoryGet(a, CategoryIcon) == CategoryGet(b, CategoryIcon);
  }

  function OfferGet(o: Offer, f: OfferField): string
  {
    match f
    case OfferTitle => o.title
    case OfferImage => o.image
    case OfferDescription => o.description
    case OfferUrl => o.affiliateUrl
  }

  function OfferSet(o: Offer, f: OfferField, v: string): (r: Offer)
    ensures OfferGet(r, f) == v
    ensures forall g :: g != f ==> OfferGet(r, g) == OfferGet(o, g)
  {
    match f
    case OfferTitle => o.(title := v)
    case OfferImage => o.(image := v)
    case OfferDescription => o.(description := v)
    case OfferUrl => o.(affiliateUrl := v)
  }

  lemma OfferExtensional(a: Offer, b: Offer)
    requires forall g :: OfferGet(a, g) == OfferGet(b, g)
    ensures a == b
  {
    assert OfferGet(a, OfferTitle) == OfferGet(b, OfferTitle);
    assert OfferGet(a, OfferImage) == OfferGet(b, OfferImage);
    assert OfferGet(a, OfferDescription) == OfferGet(b, OfferDescription);
    assert OfferGet(a, OfferUrl) == OfferGet(b, OfferUrl);
  }

  function SocialGet(s: Social, f: SocialField): string
  {
    match f
    case Instagram => s.instagram
    case TikTok => s.tiktok
    case YouTube => s.youtube
  }

  function SocialSet(s: Social, f: SocialField, v: string): (r: Social)
    ensures SocialGet(r, f) == v
    ensures forall g :: g != f ==> SocialGet(r, g) == SocialGet(s, g)
  {
    match f
    case Instagram => s.(instagram := v)
    case TikTok => s.(tiktok := v)
    case YouTube => s.(youtube := v)
  }

  lemma SocialExtensional(a: Social, b: Social)
    requires forall g :: SocialGet(a, g) == SocialGet(b, g)
    ensures a == b
  {
    assert SocialGet(a, Instagram) == SocialGet(b, Instagram);
    assert SocialGet(a, TikTok) == SocialGet(b, TikTok);
    assert SocialGet(a, YouTube) == SocialGet(b, YouTube);
  }

  // ---------------------------------------------------------------------------
  // The blank entries the "add" buttons append.

  const BlankMarketplace := Marketplace("", "", "🛒")

  const BlankCategory := Category("", "", "📦")

  const BlankOffer := Offer("", "", "", "")

  // ---------------------------------------------------------------------------
  // The parts of the built-in default document that the admin page and the home page
  // write out identically. The two defaults differ only in their offers.

  const DefaultHero := Hero(
    "Todos os Melhores Descontos em um só Lugar",
    "Acesso rápido a Mercado Livre, Amazon, Magazine Luiza, Americanas, Shopee e AliExpress",
    "Aproveitar Agora")

  const DefaultMarketplaces := [
    Marketplace("Amazon", "https://amazon.com.br", "🛒"),
    Marketplace("Mercado Livre", "https://mercadolivre.com.br", "🛍️"),
    Marketplace("Magazine Luiza", "https://magazineluiza.com.br", "🏪"),
    Marketplace("Americanas", "https://americanas.com.br", "🛒"),
    Marketplace("Shopee", "https://shopee.com.br", "🛍️"),
    Marketplace("AliExpress", "https://aliexpress.com", "📦")
  ]

  const DefaultCategories := [
    Category("Tecnologia", "tecnologia", "💻"),
    Category("Casa & Jardim", "casa-jardim", "🏠"),
    Category("Moda", "moda", "👗"),
    Category("Bebês", "bebes", "🍼"),
    Category("Games", "games", "🎮"),
    Category("Beleza", "beleza", "💄")
  ]

  const DefaultSocial := Social("https://instagram.com", "https://tiktok.com", "https://youtube.com")

  const DefaultDisclaimer :=
    "Este site contém links de afiliados. Ao comprar por eles, você apoia nosso trabalho sem pagar nada a mais."

  /** The set of slugs that the categories of a document carry. */
  function CategorySlugs(cs: seq<Category>): set<string>
  {
    set i | 0 <= i < |cs| :: cs[i].slug
  }
}
