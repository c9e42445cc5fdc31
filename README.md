# Site content and admin editor of "Meus Descontos Online"

This is a Dafny model of the content core of an affiliate-link website. The whole site is one
document, `SiteData`. It holds:

- the hero texts;
- the ordered lists of marketplaces and categories;
- the offers of each category, keyed by category slug;
- the social links;
- the affiliate disclaimer.

The document lives in browser local storage under the key `siteData`. The admin page edits it
behind a login kept under `adminAuth`. The home page reads it back.

The model has seven modules:

- `Wrappers` (wrappers.dfy): the `Option` type, which stands for a storage key that is unset or a file that was not chosen.
- `SiteContent` (site_content.dfy): the document's records. Each record has a field selector with a getter and a setter, and the setters obey the get/set laws. The module also holds the parts of the default document that both pages write out the same way.
- `Editor` (editor.dfy): every editing handler of the admin page, as a pure function from the old document to the new one:
  - append a blank marketplace, category or offer;
  - remove an entry by filtering out a position;
  - overwrite one text field.

  `Path`, `Lookup` and `Edit` name every text field of the document. With them the editor proves that a field edit is a point update: the document is determined by its shape and its fields, so nothing else can change.
- `Store` (store.dfy): the two storage keys, what a stored or imported text parses to, save and load-with-fallback, the session flag, and the credential check with its configuration fallback.
- `Admin` (admin_page.dfy): the admin page's default document, and class `AdminPage`. The class holds the page's state (`isAuthenticated`, `loginForm`, `data`, `message`, and `store` for the page's view of local storage). Each handler is a method whose `ensures` ties the new state to the `Editor` and `Store` functions.
- `Home` (home_page.dfy): the home page's default document and the document it shows after loading. It also has the marketplace route slug (`name.toLowerCase().replace(/\s+/g, '-')`), the category link, and the featured-offers selection.
- `Pages` (pages.dfy): facts that link the two pages through storage and through their two different defaults.

Two behaviours of the code are easy to misread:

- `addOffer` does not create a missing key. It throws, because it spreads `prev.offers[category]`. See Findings.
- `loadData` on the admin page does not fall back to the built-in default when the stored value fails to parse. It keeps whatever document the page already holds.

## Model

| member | source | states |
|---|---|---|
| Editor.FilterOutFrom | src/app/admin/page.tsx:173 | filtering out one position, counting positions from `k`, equals cutting that element out of the list; if the position is not in the list, the list is unchanged |
| Editor.RemoveAt | src/app/admin/page.tsx:173 | `filter((_, i) => i !== index)` drops exactly the element at a valid index (length minus one, `s[..i] + s[i+1..]`) and is the identity for any other index |
| Editor.RemoveAtKeepsOrder | src/app/admin/page.tsx:173 | after a removal, every survivor keeps its relative order: element j is `s[j]` before the gap and `s[j+1]` after it |
| Editor.AddMarketplace | src/app/admin/page.tsx:163-168 | the marketplace list grows by one; the old entries form its prefix; the last entry is `{name:'', affiliateUrl:'', icon:'🛒'}`; every other part of the document is unchanged |
| Editor.RemoveMarketplace | src/app/admin/page.tsx:170-175 | a valid index removes exactly that marketplace and keeps the order of the rest; any other index leaves the document unchanged; only the marketplace list can change |
| Editor.RemoveMarketplaceUndoesAdd | src/app/admin/page.tsx:163-175 | adding a marketplace and then removing the entry at the old length gives back the original document |
| Editor.SetMarketplaceField | src/app/admin/page.tsx:467-501 | editing name, icon or link of marketplace i sets that field and no other field of that entry; every other entry and every other part of the document is unchanged |
| Editor.AddCategory | src/app/admin/page.tsx:177-182 | the category list grows by one and ends with `{name:'', slug:'', icon:'📦'}`; nothing else changes, `offers` included |
| Editor.RemoveCategory | src/app/admin/page.tsx:184-189 | has the same filter semantics as marketplace removal, on categories; `offers` is untouched |
| Editor.RemoveCategoryUndoesAdd | src/app/admin/page.tsx:177-189 | adding a category and then removing it at the old length gives back the original document |
| Editor.RemoveCategoryOrphansOffers | src/app/admin/page.tsx:184-189 | removing the only category with slug s leaves `offers[s]` in place although no category refers to s any more |
| Editor.SetCategoryField | src/app/admin/page.tsx:545-579 | editing name, slug or icon of category i changes that one field only |
| Editor.AddOffer | src/app/admin/page.tsx:191-202 | as written: defined only when the key exists; appends a blank offer to `offers[c]`; keys, other lists and the rest of the document are unchanged |
| Editor.AddOfferOrCreate | src/app/admin/page.tsx:191-202 | corrected: appends a blank offer to the category's list, reading a missing list as empty; the key set grows by at most that key; other lists and the rest of the document are unchanged |
| Editor.AddOfferOrCreateAgrees | src/app/admin/page.tsx:191-202 | wherever the written handler does not throw, the corrected one gives the same document |
| Editor.AddOfferAfterAddCategoryMissesKey | src/app/admin/page.tsx:177-202 | right after "add category", the new category's slug '' is not a key of `offers`, so its "add offer" button calls `addOffer` outside its domain |
| Editor.RemoveOffer | src/app/admin/page.tsx:204-212 | filters out index i of `offers[c]` only; the key set and other categories' lists are unchanged; any other index leaves the document unchanged |
| Editor.RemoveOfferUndoesAdd | src/app/admin/page.tsx:191-212 | adding an offer to c and then removing it at the old length gives back the original document |
| Editor.SetOfferField | src/app/admin/page.tsx:629-678 | editing one field of offer `(c, i)` changes that field only; other offers of c, other categories' lists, the key set and the rest of the document are unchanged |
| Editor.SetHeroField | src/app/admin/page.tsx:402-435 | title, subtitle or button text is set; the other two hero fields and the rest of the document are unchanged |
| Editor.SetSocialField | src/app/admin/page.tsx:713-744 | the Instagram, TikTok or YouTube link is set; the other two links and the rest of the document are unchanged |
| Editor.SetDisclaimer | src/app/admin/page.tsx:763-766 | the disclaimer is set and nothing else changes |
| Editor.OffersOf | src/app/admin/page.tsx:607-619 | the offers shown for a category: its list when the category's slug is a key of `offers`, the empty list when it is not (`?.length \|\| 0`, `?.map`) |
| Editor.Edit | src/app/admin/page.tsx:402-766 | the `onChange` dispatch from an input's address to its field edit; afterwards that address reads the typed value; with the lemmas below, nothing else changes |
| Editor.EditKeepsShape | src/app/admin/page.tsx:402-766 | no field edit changes a list length or the set of offer keys |
| Editor.EditIsPointUpdate | src/app/admin/page.tsx:402-766 | after editing the field at address p, p reads the new value and every other address reads what it read before |
| Editor.DocumentExtensional | src/app/admin/page.tsx:6-34 | two documents with the same shape and the same text at every address are equal, so a point update changes nothing beyond its field |
| Editor.EditSameValueIsIdentity | src/app/admin/page.tsx:402-766 | typing back the value a field already holds leaves the document equal to itself |
| Editor.EditTwiceLastWins | src/app/admin/page.tsx:402-766 | two edits to the same field equal the second edit alone |
| Store.LoadFallback | src/app/admin/page.tsx:92-101 | a stored document that parses replaces the current one; an unset key or a parse failure keeps the current one |
| Store.Save | src/app/admin/page.tsx:128-132 | the whole document is written under `siteData`; `adminAuth` is untouched |
| Store.LoadAfterSave | src/app/admin/page.tsx:92-132 | loading right after saving gives the saved document, whatever was held before |
| Store.SaveOverwrites | src/app/admin/page.tsx:128-132 | a later save replaces an earlier one entirely |
| Store.MarkAuthenticated | src/app/admin/page.tsx:112 | login writes `adminAuth = 'true'` and leaves `siteData` alone |
| Store.ClearAuthenticated | src/app/admin/page.tsx:124 | logout removes `adminAuth` and leaves `siteData` alone |
| Store.SessionFlagRoundTrip | src/app/admin/page.tsx:85-126 | after login a remount restores the session; after logout it does not; every other text (such as 'True') does not restore it; logout undoes login's write |
| Store.RestoresSession | src/app/admin/page.tsx:85-86 | a session is restored iff `adminAuth` holds exactly 'true' (an unset or empty flag never restores it); `SessionFlagRoundTrip` shows login sets it, logout clears it and every other text fails |
| Store.ConfiguredOr | src/app/admin/page.tsx:107-108 | `env || fallback`: a set, non-empty value wins; an unset or empty value gives the fallback |
| Store.ExpectedEmail | src/app/admin/page.tsx:107 | the expected e-mail is never empty, and is 'admin@exemplo.com' when nothing is configured |
| Store.ExpectedPassword | src/app/admin/page.tsx:108 | the expected password is never empty, and is 'admin123' when nothing is configured |
| Store.CredentialsMatch | src/app/admin/page.tsx:110 | exact equality of both form fields with the expected values, so a match needs both fields non-empty |
| Store.DefaultCredentialsOnly | src/app/admin/page.tsx:107-110 | without configuration, login succeeds exactly for 'admin@exemplo.com' / 'admin123' |
| Store.EmptyConfigurationFallsBack | src/app/admin/page.tsx:107-108 | configuration set to the empty string behaves as no configuration |
| Store.EmptyFormNeverMatches | src/app/admin/page.tsx:107-125 | the empty form that logout leaves behind never logs in |
| Admin.AdminDefaultOffers | src/app/admin/page.tsx:50-65 | the admin default has one empty offer list per category slug and no other key |
| Admin.AdminPage.constructor | src/app/admin/page.tsx:75-81 | initial state: not authenticated, empty form, default document, empty message |
| Admin.AdminPage.Mount | src/app/admin/page.tsx:83-90 | the page is authenticated after mount iff `adminAuth` is exactly 'true', and only then loads the stored document |
| Admin.AdminPage.LoadData | src/app/admin/page.tsx:92-101 | the document becomes the load-with-fallback of the stored value |
| Admin.AdminPage.SetLoginEmail | src/app/admin/page.tsx:233 | only the form's e-mail changes |
| Admin.AdminPage.SetLoginPassword | src/app/admin/page.tsx:249 | only the form's password changes |
| Admin.AdminPage.HandleLogin | src/app/admin/page.tsx:103-120 | called only from the login form, which is shown while unauthenticated (lines 214-223); success iff both fields equal the expected values; on success: authenticated, `adminAuth='true'`, stored document loaded, success message; on failure: still unauthenticated and only the failure message changes |
| Admin.AdminPage.HandleLogout | src/app/admin/page.tsx:122-126 | not authenticated, `adminAuth` removed, form reset to empty strings; the document is kept |
| Admin.AdminPage.SaveData | src/app/admin/page.tsx:128-132 | storage holds the current document under `siteData`; the message reports the save |
| Admin.AdminPage.ImportData | src/app/admin/page.tsx:145-161 | no file: nothing changes; parse failure: document kept, message 'Erro ao importar dados!'; success: the document is replaced wholesale |
| Admin.AdminPage.AddMarketplace | src/app/admin/page.tsx:163-168 | the document becomes `Editor.AddMarketplace` of the old one; no other state changes |
| Admin.AdminPage.RemoveMarketplace | src/app/admin/page.tsx:170-175 | the document becomes `Editor.RemoveMarketplace` of the old one |
| Admin.AdminPage.AddCategory | src/app/admin/page.tsx:177-182 | the document becomes `Editor.AddCategory` of the old one |
| Admin.AdminPage.RemoveCategory | src/app/admin/page.tsx:184-189 | the document becomes `Editor.RemoveCategory` of the old one |
| Admin.AdminPage.AddOffer | src/app/admin/page.tsx:191-202 | the document becomes `Editor.AddOfferOrCreate` of the old one, which is the written `addOffer` whenever the key exists |
| Admin.AdminPage.RemoveOffer | src/app/admin/page.tsx:204-212 | the document becomes `Editor.RemoveOffer` of the old one |
| Admin.AdminPage.SetHeroField | src/app/admin/page.tsx:402-435 | the document becomes `Editor.SetHeroField` of the old one |
| Admin.AdminPage.SetMarketplaceField | src/app/admin/page.tsx:467-501 | the document becomes `Editor.SetMarketplaceField` of the old one |
| Admin.AdminPage.SetCategoryField | src/app/admin/page.tsx:545-579 | the document becomes `Editor.SetCategoryField` of the old one |
| Admin.AdminPage.SetOfferField | src/app/admin/page.tsx:629-678 | the document becomes `Editor.SetOfferField` of the old one |
| Admin.AdminPage.SetSocialField | src/app/admin/page.tsx:713-744 | the document becomes `Editor.SetSocialField` of the old one |
| Admin.AdminPage.SetDisclaimer | src/app/admin/page.tsx:763-766 | the document becomes `Editor.SetDisclaimer` of the old one |
| Admin.FreshStoreAddCategoryScenario | src/app/admin/page.tsx:177-182 | fresh store: the default has 6 categories and 6 marketplaces; add a category and there are 7, the blank one at index 6; a load after saving sees 7 |
| Admin.LoginReloadLogoutReload | src/app/admin/page.tsx:83-126 | on the default credentials, a reload after login restores the session and a reload after logout does not |
| Home.HomeDefaultShape | src/app/page.tsx:37-80 | the home default has 6 marketplaces and 6 categories; its offer keys are exactly the category slugs; only 'tecnologia' has offers, exactly one |
| Home.InitialData | src/app/page.tsx:89-98 | with nothing stored, or a stored value that fails to parse, the page shows its default; a parsed value replaces it entirely |
| Home.HomeSeesSavedDocument | src/app/page.tsx:91-98 | what the admin page saves is what the home page shows on its next load |
| Home.LowerChar | src/app/page.tsx:325 | ASCII `toLowerCase` on one character: maps 'A'-'Z' to 'a'-'z', keeps every other character, and never yields an upper-case letter |
| Home.Lower | src/app/page.tsx:325 | `toLowerCase` keeps the length; `LowerKeepsPositions` shows each position goes through `LowerChar` and no upper-case letter remains |
| Home.CollapseSpaces | src/app/page.tsx:325 | `replace(/\s+/g, '-')` never lengthens the text and empties only the empty text; `CollapseRemovesSpaces`, `CollapseIdentity` and `CollapseRun` fix its result on every input |
| Home.SkipSpaces | src/app/page.tsx:325 | the text after a leading whitespace run does not start with whitespace |
| Home.LowerKeepsPositions | src/app/page.tsx:325 | lower-casing maps every position through `LowerChar` and leaves no upper-case letter |
| Home.CollapseRemovesSpaces | src/app/page.tsx:325 | after `replace(/\s+/g, '-')` no whitespace is left |
| Home.CollapseKeepsCase | src/app/page.tsx:325 | collapsing whitespace adds no upper-case letter |
| Home.CollapseIdentity | src/app/page.tsx:325 | text without whitespace is left unchanged |
| Home.CollapseRun | src/app/page.tsx:325 | a maximal whitespace run between whitespace-free text and the rest becomes exactly one '-' |
| Home.Slug | src/app/page.tsx:325 | a marketplace route segment has no whitespace and no upper-case letter |
| Home.SlugIdempotent | src/app/page.tsx:325 | applying the slug twice equals applying it once |
| Home.SlugOfWord | src/app/page.tsx:325 | a name without whitespace is only lower-cased |
| Home.SlugOfTwoWords | src/app/page.tsx:325 | two words joined by any whitespace run become the lower-cased words joined by one '-' |
| Home.DefaultMarketplaceSlugs | src/app/page.tsx:44-49 | the default names route to 'amazon', 'mercado-livre', 'magazine-luiza', 'americanas', 'shopee', 'aliexpress' |
| Home.SlugIgnoresCaseAndSpacing | src/app/page.tsx:325 | slugs are not unique: 'Mercado Livre', 'mercado  livre' and 'MERCADO\tLIVRE' share one route |
| Home.MarketplaceHref | src/app/page.tsx:325 | the marketplace link is '/marketplace/' followed by the slug of the name, so its route segment has no whitespace and no upper-case letter whatever name was typed |
| Home.CategoryHref | src/app/page.tsx:304 | the category link is '/categoria/' followed by the stored slug, verbatim |
| Home.CategoryHrefOnlySlug | src/app/page.tsx:304 | two categories link to the same page iff their stored slugs are equal; nothing comes from the name |
| Home.Take | src/app/page.tsx:353 | `slice(0, n)` keeps the first min(n, length) elements, in order |
| Home.Featured | src/app/page.tsx:347-353 | the featured block is shown iff `offers` has key 'tecnologia' with a non-empty list; it then holds the first min(3, len) offers, in order |
| Home.FeaturedOnHomeDefault | src/app/page.tsx:60-67 | the home default features its one sample offer |
| Pages.DefaultsDifferOnlyInSampleOffer | src/app/page.tsx:59-73 | the admin default equals the home default with 'tecnologia' emptied, and the two differ |
| Pages.SavingAdminDefaultHidesFeatured | src/app/page.tsx:347-353 | with nothing stored the home page features the sample offer; after the admin page saves its untouched default, nothing is featured |
| Pages.AdminDefaultAddCategoryMissesKey | src/app/admin/page.tsx:177-202 | from the admin page's own default document, the category that "add category" appends has slug '' and `offers` has no key '', so its "add offer" button reaches `addOffer` outside its domain |
| Pages.AddedOfferIsFeatured | src/app/page.tsx:347-353 | one offer added to 'tecnologia' on the admin default and saved is the only featured offer on the home page |

## Findings

| source | as written | input that shows it | evidently intended | confidence | as-written member | corrected member |
|---|---|---|---|---|---|---|
| src/app/admin/page.tsx:191-202 | `addOffer` builds `[...prev.offers[category], blank]`, which throws a TypeError when `offers` has no key `category` | click "add category", then click "add offer" on the new category, whose slug '' is not a key of the default `offers`; the same happens for any category whose slug was edited to a value without a list | append a blank offer to an empty list and create the key, as the offers tab already reads a missing list as empty (`?.length \|\| 0`, line 607) | not executed | Editor.AddOffer, Editor.AddOfferAfterAddCategoryMissesKey, Pages.AdminDefaultAddCategoryMissesKey | Editor.AddOfferOrCreate |

## Left out

- Export (src/app/admin/page.tsx:134-143): writing a downloadable file is browser I/O. Nothing in the document changes.
- JSON serialisation: stored and imported texts appear only as what `JSON.parse` returns, either a document or a failure. So the model does not check a parsed value's shape. Saving is taken to round-trip.
- An empty stored string (`if (savedData)` is false) is modelled as a text that fails to parse. Both lead to the same outcome.
- Timers: the messages are never cleared after 3 seconds, because `setTimeout` is not modelled.
- The file read during import is modelled as finishing at once.
- `process.env`: the two configuration values are parameters of `HandleLogin`.
- Unicode: `toLowerCase` and `\s` are modelled on ASCII only. The lower-case map covers 'A'-'Z'. Whitespace is space, tab, line feed, carriage return, vertical tab and form feed. Non-ASCII letters are kept as they are.
- Value semantics: the element field edits copy the container and assign into an element object that the previous document shares. They also read `data` from the render's closure rather than `prev`. Neither aliasing nor a stale closure is modelled.
- Element field edits require a valid index, and offer edits also an existing key; `removeOffer` requires only an existing key, and an out-of-range index leaves the list unchanged, as `filter` does. Only rendered rows have these controls, and outside that domain the code throws.
- Presentation: markup, styling, icons, tabs, the password-visibility toggle, the unused `editingOffer` state and `marketplaceColors` carry no behaviour that can be stated.
- Home page: the contact form, menu toggling and scroll restoration (src/app/page.tsx:100-160) are timers, DOM events and session storage.
- Home page: the page renders once with its default before the mount effect adopts the stored document. Only the state after the effect is modelled.
- The category and marketplace detail pages are not part of this model.
- Editor.OffersOf: `offers` is modelled as a map with only its own keys. In the page it is a plain object, so a slug that names an inherited `Object.prototype` member (`constructor`, `toString`, `hasOwnProperty`, `__proto__`) finds that member instead of nothing. The offers tab then shows its `length` and throws at `?.map`. The model reads such a slug as having no offers and does not capture the throw.
- Admin.AdminPage.AddOffer: on a category without an offer list, the page's handler throws. This method appends to an empty list instead (see Findings). It agrees with the page's handler wherever that handler does not throw.
- Admin.AdminPage.Mount: React runs the mount effect once. The model lets it be called on any state.
