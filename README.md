# Product scraping and query pipeline, modelled in Dafny

This project models the core of a product-aggregation back end. Two
platform scrapers (Vinted and Amazon) turn fetched pages into canonical
product records. The listing save and the detail update write those
records into one product collection, keyed by `product_id`. A route layer
dispatches a search or detail request to a registered platform, or searches
every platform with per-platform failure isolation. A query object reads the
collection back: all products, products filtered by source, name, brand,
condition or description keywords, one page at a time, or a fuzzy category
search.

Modules, one per concern of the program:

- `Values`: dynamic values as the program stores them (`None`, strings,
  booleans, integers, lists, dictionaries, object ids). It also holds the
  26 record fields, the document type `map<Key, Value>`, and Python
  truthiness.
- `Text`: the string built-ins the extractors rely on: `strip`, `split`,
  `"".join`, `replace`, ASCII `lower`, substring tests and `int()` on
  decimal text.
- `Products`: the `Product` record with `to_dict`, `is_valid` and
  `__repr__`.
- `Store`: the collection, its schema check, and its lookup, update and
  insert steps.
- `Database`: the shared connection manager with its initialise, client
  and close steps, and the single-instance constructor.
- `Upsert`: `save_to_mongo` and `update_product_details`.
- `Page`: the parsed page as a tree of nodes, and what each selector
  finds.
- `Adapter`: what the two scrapers share, namely slicing to `limit`,
  keeping the parsed items, and saving them.
- `Vinted` and `Amazon`: the extractors, `search` and `get_detail`.
- `Route`: the registry, the dispatch and the all-platforms aggregate.
- `Query`: the query object and its filters.

State that the source updates in place is modelled as classes:
`DatabaseManager`, `Client`, `Collection` and `Query`. Loops the source
runs are methods, each proved equal to a function that defines its result:

- the listing parse loop (`Adapter.Collect`);
- the per-item save loop;
- the all-platforms loop;
- the formatting loop;
- the nested category-filter loops.

The fetched page, the outcome of connecting to the database, the fuzzy
similarity score, `str()` of an object id and today's date are all
parameters.

## Model

| member | source | states |
|---|---|---|
| Products.Fresh | api/scrapers/utils.py:6-34 | A new record carries its source and `None` in every other field, so it fails the validity gate |
| Products.ToDict | api/scrapers/utils.py:36-37 | The dictionary has exactly one entry per declared field, holding that field's value, with `None` kept |
| Products.ToDictSize | api/scrapers/utils.py:36-37 | The dictionary has 26 entries |
| Products.ToDictInjective | api/scrapers/utils.py:36-37 | Different records give different dictionaries, so nothing is lost |
| Products.FieldsDetermine | api/scrapers/utils.py:6-37 | Two records that agree on every field value are equal |
| Products.ValidIffMandatorySet | api/scrapers/utils.py:39-47 | A record is valid exactly when `url`, `product_id`, `name` and `price` are all non-`None` in its dictionary |
| Products.ValidIgnoresOtherFields | api/scrapers/utils.py:39-47 | Validity depends only on which mandatory fields are set |
| Products.EmptyStringsPass | api/scrapers/utils.py:39-47 | Empty strings count as set: a record with `""` in every mandatory field is valid |
| Products.Repr | api/scrapers/utils.py:49-50 | The text starts with the cart sign and a space |
| Products.ReprFields | api/scrapers/utils.py:49-50 | When no shown value contains `-`, splitting the text after the sign on `-` gives back source, id, price and name |
| Store.Normalize | api/bd_scraping_arbook/models_scraping.py:5-34 | An inserted document holds every schema field (absent ones as `None`) plus the new `_id`, and no other key |
| Store.FindFirst | api/scrapers/vinted_scraper.py:36-38 | The first document whose `product_id` matches the filter is found; none matches before it; `None` exactly when nothing matches |
| Store.Lookup | api/scrapers/vinted_scraper.py:36-38 | `find_one` returns the first match when it passes schema validation, raises when it does not, and returns `None` when nothing matches |
| Store.Update | api/scrapers/vinted_scraper.py:40 | `set` writes exactly the given entries into the found document; other documents and other keys are unchanged |
| Store.Insert | api/scrapers/vinted_scraper.py:45-46 | `insert` appends the normalized document with the next id |
| Store.UpdateKeepsIds | api/scrapers/vinted_scraper.py:40 | An update that does not touch `_id` keeps ids present and distinct |
| Store.InsertKeepsIds | api/scrapers/vinted_scraper.py:45-46 | An insert keeps ids present and distinct |
| Store.Collection.constructor | api/bd_scraping_arbook/models_scraping.py:5-34 | A new collection is empty and will hand out ids from zero |
| Store.Collection.Set | api/scrapers/vinted_scraper.py:40 | The collection's new state is the update of the old one |
| Store.Collection.Add | api/scrapers/vinted_scraper.py:45-46 | The collection's new state is the insert into the old one |
| Database.DatabaseManager.constructor | api/bd_scraping_arbook/database.py:19-27 | A new manager keeps its connection string and database name, has no client and is not initialised |
| Database.DatabaseManager.Initialize | api/bd_scraping_arbook/database.py:29-47 | Nothing happens once initialised; otherwise a client is built and the flag is raised only when the mapper set-up also succeeds; the result is the flag |
| Database.DatabaseManager.GetClient | api/bd_scraping_arbook/database.py:49-56 | The open client when initialised, `None` otherwise |
| Database.DatabaseManager.Close | api/bd_scraping_arbook/database.py:62-68 | An existing client is closed and dropped and the flag is lowered; without a client nothing changes |
| Database.ManagerSingleton.Construct | api/bd_scraping_arbook/database.py:14-27 | The first construction builds a fresh, uninitialised manager; every later one returns that same instance unchanged |
| Upsert.SaveToMongo | api/scrapers/vinted_scraper.py:17-54 | With a failed initialisation the store is unchanged; otherwise every item is saved in list order |
| Upsert.SaveOverwritesWholesale | api/scrapers/vinted_scraper.py:39-43 | A found document takes every entry of the item, `None` included; other keys and other documents stay as they were |
| Upsert.SaveInsertsAbsent | api/scrapers/vinted_scraper.py:44-49 | An absent, schema-conforming item is appended and is then the first match for its `product_id` |
| Upsert.SaveOneIdempotent | api/scrapers/vinted_scraper.py:33-54 | Saving the same extractor record twice leaves the store as saving it once |
| Upsert.SecondSaveAfterInsert | api/scrapers/vinted_scraper.py:33-54 | After an insert, a second save of the same record changes nothing |
| Upsert.SecondSaveAfterUpdate | api/scrapers/vinted_scraper.py:33-54 | After an overwrite, a second save of the same record changes nothing |
| Upsert.Flatten | api/scrapers/vinted_scraper.py:470-476 | An `uploaded` dictionary becomes `"<scraped> - <time>"` with `N/A` for missing parts; every other entry is unchanged |
| Upsert.Diff | api/scrapers/vinted_scraper.py:484-488 | The changed fields are exactly the non-`None` incoming entries that differ from the stored attribute |
| Upsert.UpdateProductDetails | api/scrapers/vinted_scraper.py:448-518 | A non-dictionary or a record without a truthy `product_id` gives `{}` and no write; a failed set-up or a lookup that raises also gives `{}`; otherwise the store gets the detail update of the record with `uploaded` flattened, and that record is returned |
| Upsert.DetailsNeverWriteNull | api/scrapers/vinted_scraper.py:484-492 | A `None` incoming value never overwrites a stored field, and other documents are untouched |
| Upsert.DetailsReflectIncoming | api/scrapers/vinted_scraper.py:484-492 | Afterwards every non-`None` incoming field is what the document holds |
| Upsert.DetailsNoChangeNoWrite | api/scrapers/vinted_scraper.py:490-501 | A record that agrees with the stored document writes nothing |
| Upsert.DetailsIdempotent | api/scrapers/vinted_scraper.py:448-518 | Applying the same detail record twice is the same as applying it once |
| Upsert.DetailsKeepKeys | api/scrapers/vinted_scraper.py:479-511 | The detail update keeps at most one document per `product_id` |
| Upsert.SaveKeepsKeys | api/scrapers/vinted_scraper.py:33-49 | One listing save keeps at most one document per `product_id` |
| Upsert.SaveAllKeepsKeys | api/scrapers/vinted_scraper.py:33-54 | A whole listing save keeps at most one document per `product_id` |
| Upsert.WholesaleVersusDiff | api/scrapers/vinted_scraper.py:484-492 | For a `None` entry, the listing save writes `None` while the detail update keeps the stored value |
| Upsert.PlatformsShareDocuments | api/scrapers/amazon_scraper.py:19-56 | An Amazon record whose `product_id` equals a Vinted one overwrites that one document, whose source becomes `amazon` |
| Page.SelectOne | api/scrapers/vinted_scraper.py:139-141 | `select_one` is `None` exactly when nothing matches, else the first match |
| Page.Attr | api/scrapers/vinted_scraper.py:143 | `get` on an attribute is `None` exactly when the attribute is absent |
| Adapter.PySlice | api/scrapers/vinted_scraper.py:127 | `xs[:limit]` is a prefix of length `min(limit, len)`, or for a negative limit the list without its last `-limit` items |
| Adapter.Somes | api/scrapers/vinted_scraper.py:127-131 | Exactly the parsed records are kept |
| Adapter.SomesAppend | api/scrapers/vinted_scraper.py:127-131 | Keeping preserves page order |
| Adapter.Collect | api/scrapers/vinted_scraper.py:127-131 | The parse loop keeps the records that parse, in order |
| Adapter.SearchResult | api/scrapers/vinted_scraper.py:102-133 | An empty page gives `[]`, an unparsable page re-raises its error, and a loaded page gives at most `limit` parsed records |
| Adapter.Search | api/scrapers/vinted_scraper.py:102-133 | `search` returns the parsed records; with records and a working set-up it saves them all, and otherwise the store and, without records, the set-up flag stay unchanged |
| Adapter.SearchKeepsExactlyParsed | api/scrapers/vinted_scraper.py:127-131 | A record is in the result exactly when some node among the first `limit` parses to it |
| Adapter.SearchKeepsKeys | api/scrapers/vinted_scraper.py:127-133 | A search whose parser gives text ids keeps at most one document per `product_id` |
| Vinted.CardId | api/scrapers/vinted_scraper.py:143 | The id from `data-testid` holds no `-` |
| Vinted.CardRecord | api/scrapers/vinted_scraper.py:135-189 | Parsing a card raises exactly when the id node lacks `data-testid`, or when a price node is present and the protection node is absent |
| Vinted.CardProduct | api/scrapers/vinted_scraper.py:136-180 | The record is sourced `vinted`; its id is set exactly when the id node exists; name, price and description are the stripped texts; the protection price is the protection text when the card has a price node and `None` when it has none; a url is never empty |
| Vinted.CardProtectionNeedsPrice | api/scrapers/vinted_scraper.py:175-183 | A card without a price node gets no protection price and is invalid, so it is dropped |
| Vinted.ParseItem | api/scrapers/vinted_scraper.py:182-189 | A card yields the record's dictionary exactly when it parses and is valid |
| Vinted.CardKept | api/scrapers/vinted_scraper.py:135-189 | A kept card has id, title, price and protection nodes, a non-empty url, source `vinted`, and the protection text as its protection price |
| Vinted.CardWithoutProtectionDropped | api/scrapers/vinted_scraper.py:175-180 | A card with a price but no protection node is dropped |
| Vinted.CardIdShape | api/scrapers/vinted_scraper.py:143 | The id is the `-`-free tail of the `data-testid` text before its first `--` |
| Vinted.ParsedIdIsText | api/scrapers/vinted_scraper.py:142-146 | A kept card carries its id as a text value |
| Vinted.ParseDetail | api/scrapers/vinted_scraper.py:191-337 | At most one record: the page's record, when it parses and is valid |
| Vinted.DetailEmptyCases | api/scrapers/vinted_scraper.py:191-337 | The detail parse is empty exactly when there is no detail container, the canonical link has no `href`, a count is not a number, or the record is invalid |
| Vinted.DetailFields | api/scrapers/vinted_scraper.py:194-238 | A parsed detail has the canonical url with its last path segment as id, the breadcrumb texts without the first as categories, stock as the absence of a status node, and a price without non-breaking spaces |
| Page.Texts | api/scrapers/vinted_scraper.py:236-238 | One stripped text per node, in page order |
| Vinted.InterestedFirstWord | api/scrapers/vinted_scraper.py:270-276 | The interested count is the number before the first space |
| Vinted.Search | api/scrapers/vinted_scraper.py:102-133 | The shared search over Vinted cards: its reply, the new store and the new set-up flag are those of `Adapter.SearchEffect` |
| Vinted.GetDetail | api/scrapers/vinted_scraper.py:350-374 | An empty page (which is also what a failed fetch gives) and an unparsed detail give `[]`; content the parser rejects re-raises; all three leave the store and set-up flag unchanged. Otherwise the set-up is attempted only for a record with a truthy id; the reply is a one-element list holding the flattened record when set up and the lookup does not raise (a valid stored match or none), and `{}` otherwise; the store gets the detail update exactly when set up |
| Vinted.DetailTwice | api/scrapers/vinted_scraper.py:350-374 | Once a detail fetch has left the manager set up, fetching the same page again leaves the store as the first fetch left it |
| Amazon.ItemUrl | api/scrapers/amazon_scraper.py:173-176 | A relative `href` is prefixed with the site root; an empty or absolute one is kept |
| Amazon.Delivery | api/scrapers/amazon_scraper.py:166-170 | There is a delivery text exactly when the delivery node exists and its text is non-empty |
| Amazon.ItemRecord | api/scrapers/amazon_scraper.py:156-210 | Parsing an item raises exactly when the link node is missing, or an image node has no `src` |
| Amazon.ItemProduct | api/scrapers/amazon_scraper.py:157-202 | Source `amazon`; id from a non-empty `data-asin`; name the stripped heading or `""`; url from the link; exclusivity from the badge text; stock from the absence of the out-of-stock node |
| Amazon.ParseItem | api/scrapers/amazon_scraper.py:204-210 | An item yields the record's dictionary exactly when it parses and is valid |
| Amazon.ItemKeptIff | api/scrapers/amazon_scraper.py:156-210 | An item is kept exactly when it has a link, a usable image or none, a non-empty `data-asin` and a price node |
| Amazon.ItemUrlAbsolute | api/scrapers/amazon_scraper.py:172-176 | A kept item's url is empty or starts with `http`, and an absolute `href` is kept as is |
| Amazon.ItemFlags | api/scrapers/amazon_scraper.py:195-202 | A kept item's exclusivity and stock are booleans, never `None` |
| Amazon.ParsedIdIsText | api/scrapers/amazon_scraper.py:160-161 | A kept item carries its id as a text value |
| Amazon.DeliveryDropsTwoWords | api/scrapers/amazon_scraper.py:169 | The delivery price is the stripped text without its first two words and with the remaining spaces removed |
| Amazon.DeliveryOfShortText | api/scrapers/amazon_scraper.py:169 | A text of one or two words gives an empty delivery price |
| Amazon.ZipDictKeys | api/scrapers/amazon_scraper.py:212-215 | The table's keys are exactly the headers that have a data cell beside them |
| Amazon.ZipDictLastWins | api/scrapers/amazon_scraper.py:215 | A header that does not occur again maps to its own cell, so a repeated header keeps its last value |
| Amazon.ZipDict | api/scrapers/amazon_scraper.py:215 | The table has no more entries than headers or cells |
| Amazon.PresentSources | api/scrapers/amazon_scraper.py:263-270 | No more sources than images; every entry is a non-empty `src` of some image, and every non-empty `src` is present |
| Amazon.PresentSourcesSnoc | api/scrapers/amazon_scraper.py:267 | Appending one image appends its source exactly when that source is non-empty |
| Amazon.PresentSourcesOne | api/scrapers/amazon_scraper.py:267 | A single image gives `[src]` when its `src` is non-empty and `[]` otherwise |
| Amazon.PresentSourcesAppend | api/scrapers/amazon_scraper.py:267 | The sources of two runs of images are the sources of the first followed by those of the second, so order and repeats are kept |
| Amazon.ColorNames | api/scrapers/amazon_scraper.py:281-292 | No more names than swatches; every name is the stripped `alt` of a swatch with a non-empty `alt`, and every such swatch contributes |
| Amazon.ColorNamesSnoc | api/scrapers/amazon_scraper.py:285-289 | Appending one swatch appends its stripped `alt` exactly when that `alt` is non-empty |
| Amazon.ColorNamesOne | api/scrapers/amazon_scraper.py:285-289 | A single swatch gives its stripped `alt` when the `alt` is non-empty and `[]` otherwise |
| Amazon.ColorNamesAppend | api/scrapers/amazon_scraper.py:285-289 | The names of two runs of swatches are the names of the first followed by those of the second, so order and repeats are kept |
| Amazon.DetailsRecord | api/scrapers/amazon_scraper.py:217-315 | The detail record is sourced `amazon` and never sets `uploaded` |
| Amazon.ParseDetails | api/scrapers/amazon_scraper.py:217-315 | The detail parse always gives one record, even an invalid one |
| Amazon.DetailIdFallback | api/scrapers/amazon_scraper.py:225-239 | The id is the offers block's `data-asin` when it is non-empty, else the hidden input's `value`, else whatever the offers block held |
| Amazon.DetailPhotos | api/scrapers/amazon_scraper.py:259-265 | Photos are set exactly when there are images, and then list exactly the non-empty sources |
| Amazon.BarePageRecord | api/scrapers/amazon_scraper.py:217-315 | A page where no selector matches gives a record with only its source set |
| Amazon.DetailsNotUploaded | api/scrapers/amazon_scraper.py:217-315 | The detail dictionary's `uploaded` is `None` |
| Amazon.FlattenKeepsDetails | api/scrapers/amazon_scraper.py:347 | The detail record passes through the `uploaded` flattening unchanged |
| Amazon.Search | api/scrapers/amazon_scraper.py:121-154 | The shared search over Amazon result items: its reply, the new store and the new set-up flag are those of `Adapter.SearchEffect` |
| Amazon.GetDetail | api/scrapers/amazon_scraper.py:325-349 | An empty page (which is also what a failed fetch gives) gives `[]` and content the parser rejects re-raises, both with store and set-up flag unchanged. A loaded page attempts the set-up only for a record with a truthy id; it replies with a one-element list holding the record when set up and the lookup does not raise (a valid stored match or none), and `{}` otherwise; the store gets the detail update exactly when set up |
| Amazon.DetailTwice | api/scrapers/amazon_scraper.py:325-349 | Once a detail fetch has left the manager set up, fetching the same page again leaves the store as the first fetch left it |
| Route.Lookup | api/route.py:137-140 | A name is registered exactly when it is one of the registry's keys |
| Route.GetPlatforms | api/route.py:143-146 | The registry's keys in registration order, which are exactly the names that resolve |
| Route.PlatformSearch | api/route.py:158-159 | Calling the registered adapter's search gives that adapter's reply, new store and new set-up flag |
| Route.SearchAllPlatforms | api/route.py:182-196 | The loop's reply is the single-element aggregate over the registry; the store and set-up flag are those after each adapter's search in registry order |
| Route.SearchAllKeepsKeys | api/route.py:187-190 | Searching the registered platforms in turn keeps at most one document per `product_id` |
| Route.ParsedIdsAreText | api/route.py:137-140 | Every registered adapter's parser gives its records a text id |
| Route.AggregateEntries | api/route.py:184-194 | Every platform gets an entry in registry order: its results, or `[]` when it failed |
| Route.ErrorsExactly | api/route.py:191-193 | A platform failed exactly when an error entry naming it with its message is present |
| Route.PlainIffNoFailure | api/route.py:196 | The aggregate is the bare results exactly when no platform failed |
| Route.SearchProducts | api/route.py:148-163 | `all` gives the aggregate and the store after every search; an unknown platform gives 400 and changes nothing; an adapter failure gives 500 with its message; otherwise the adapter's list unchanged; in both adapter cases the store and flag are the adapter's |
| Route.GetProductDetail | api/route.py:165-179 | No `all` case: an unknown platform, `all` included, gives 400 and changes nothing. Otherwise the adapter's detail reply (`[]` for an empty page or a failed fetch), or 500 with its message when the parser rejects the page; the store and flag are those the adapter's detail step leaves |
| Query.WithId | api/bd_scraping_arbook/query.py:107 | The record gains `id` as the text of its `_id`; all other keys are unchanged |
| Query.Format | api/bd_scraping_arbook/query.py:101-111 | Formatting never adds records |
| Query.FormatMembers | api/bd_scraping_arbook/query.py:101-111 | Every formatted record comes from a record with `_id`, and every such record is formatted |
| Query.FormatResults | api/bd_scraping_arbook/query.py:101-111 | The formatting loop returns exactly `Format` of the results |
| Query.FormatAppend | api/bd_scraping_arbook/query.py:101-111 | Formatting keeps order |
| Query.FormatKeepsAll | api/bd_scraping_arbook/query.py:101-111 | When every record has an `_id`, nothing is dropped and each keeps its place |
| Query.Select | api/bd_scraping_arbook/query.py:119 | A store filter returns no more documents than the store holds |
| Query.SelectMembers | api/bd_scraping_arbook/query.py:119 | A store filter keeps exactly the documents it accepts |
| Query.SelectAppend | api/bd_scraping_arbook/query.py:119 | A store filter keeps store order |
| Query.SourceFilterKeeps | api/bd_scraping_arbook/query.py:118-119 | `None` or `""` returns every document; a non-empty source keeps exactly the documents whose source matches |
| Query.RegexSearchIgnoresCase | api/bd_scraping_arbook/query.py:132-135 | The name and description searches are a literal, case-insensitive substring match on their field, independent of the case of the text searched for |
| Query.ExactFilters | api/bd_scraping_arbook/query.py:162-186 | Brand and condition match a stored string only when equal |
| Query.Page | api/bd_scraping_arbook/query.py:216-217 | A negative skip `(page-1)*page_size` raises. Otherwise the result is the store-order slice from the skip: empty past the end, and of length `min(limit, remaining)`, where the limit is `abs(page_size)` and a limit of 0 means all remaining documents |
| Query.PageBeforeFirstRaises | api/bd_scraping_arbook/query.py:216-217 | A page number below 1 with a positive page size gives a negative skip, which raises |
| Query.PageOfZeroSize | api/bd_scraping_arbook/query.py:216-217 | A page size of 0 skips nothing and sets no limit, so it returns the whole store |
| Query.PagesCover | api/bd_scraping_arbook/query.py:216-217 | Pages 1 to n in turn give the first `n*page_size` documents, none skipped or repeated |
| Query.CountIn | api/bd_scraping_arbook/query.py:90-96 | Iterating categories raises exactly when an entry is neither `None` nor a string |
| Query.AppendHits | api/bd_scraping_arbook/query.py:87-98 | One record's categories append it once per passing category, or raise |
| Query.AppendEachHit | api/bd_scraping_arbook/query.py:90-98 | The inner loop over a list or string appends the record once per passing entry, or raises on a non-string entry |
| Query.AppendKeyHits | api/bd_scraping_arbook/query.py:90-98 | The inner loop over a dictionary appends the record once per passing key |
| Query.FilterResults | api/bd_scraping_arbook/query.py:82-99 | The filter loop returns exactly `Filter` of the results, `None` when it raises |
| Query.FilterAppend | api/bd_scraping_arbook/query.py:82-99 | The filter keeps store order and raises when either part raises |
| Query.OneRecord | api/bd_scraping_arbook/query.py:87-98 | A record is appended once per passing category, each copy with its `id`; `None` or missing categories add nothing |
| Query.FilterCeiling | api/bd_scraping_arbook/query.py:93-96 | With a threshold of 100 or more nothing passes the strict comparison |
| Query.StoredNeverRaises | api/bd_scraping_arbook/query.py:82-99 | Schema-conforming stored records with ids never make the filter raise |
| Query.Query.constructor | api/bd_scraping_arbook/query.py:46-49 | A new query object shares the manager and the store and has no collection bound yet |
| Query.Query.CheckDb | api/bd_scraping_arbook/query.py:51-66 | True exactly when the manager was or becomes initialised, and the manager's flag is then exactly that result. The client changes only when a set-up attempt builds a new one. The collection is bound to the manager's client on first success and reused from then on |
| Query.Query.AnswerTwice | api/bd_scraping_arbook/query.py:51-66 | Once a query has set the manager up, the next query gives the same answer whatever its own connection attempt would do; without a set-up the first answer is `[]` |
| Query.Query.GetAllProduct | api/bd_scraping_arbook/query.py:113-125 | `[]` unless the check passes and the bound client is still open (a closed one raises and is answered with `[]`); otherwise the formatted source-filtered documents; it leaves the manager and the collection binding as the check does |
| Query.Query.SearchByName | api/bd_scraping_arbook/query.py:127-141 | The formatted documents whose name matches, or `[]`; it leaves the manager and the collection binding as the check does |
| Query.Query.SearchByBrand | api/bd_scraping_arbook/query.py:162-173 | The formatted documents whose brand equals the argument, or `[]`; it leaves the manager and the collection binding as the check does |
| Query.Query.SearchByCondition | api/bd_scraping_arbook/query.py:175-186 | The formatted documents whose condition equals the argument, or `[]`; it leaves the manager and the collection binding as the check does |
| Query.Query.SearchByDescription | api/bd_scraping_arbook/query.py:188-206 | The formatted documents whose description matches, or `[]`; it leaves the manager and the collection binding as the check does |
| Query.Query.GetPage | api/bd_scraping_arbook/query.py:208-223 | The formatted page for any page number and size; `[]` when the check fails, the client is closed or the skip is negative; it leaves the manager and the collection binding as the check does |
| Query.Query.SearchCategories | api/bd_scraping_arbook/query.py:68-80 | The fuzzy filter over every document, `[]` when it raises or the check fails; it leaves the manager and the collection binding as the check does |
| Text.Strip | api/scrapers/vinted_scraper.py:152 | `strip()` removes exactly the leading and trailing whitespace |
| Text.StripIdempotent | api/scrapers/vinted_scraper.py:152 | Stripping twice is stripping once |
| Text.SplitJoin | api/scrapers/vinted_scraper.py:143 | Joining the pieces of `split(sep)` with `sep` gives the text back |
| Text.SplitFirst | api/scrapers/vinted_scraper.py:143 | The first piece is the text before the first separator |
| Text.FirstSegment | api/scrapers/vinted_scraper.py:143 | `split(sep)[0]` is the prefix before the first occurrence of `sep` |
| Text.LastSegment | api/scrapers/vinted_scraper.py:199 | `split(c)[-1]` is the suffix after the last `c` |
| Text.ConcatSplit | api/scrapers/amazon_scraper.py:169 | Joining the pieces of `split(c)` with `""` removes every `c` |
| Text.ReplaceChar | api/scrapers/vinted_scraper.py:222 | `replace(a, b)` keeps the length and changes exactly the occurrences of `a` into `b` |
| Text.ReplaceCharRemoves | api/scrapers/vinted_scraper.py:222 | After `replace(a, b)` the text holds no `a` |
| Text.Contains | api/scrapers/amazon_scraper.py:196-199 | `n in h` holds exactly when `n` occurs in `h` at some position |
| Text.Lower | api/bd_scraping_arbook/query.py:94 | `lower()` keeps the length and lower-cases each character on its own |
| Text.ContainsIgnoringCaseInvariant | api/bd_scraping_arbook/query.py:132 | A case-insensitive match does not depend on the case of either side |
| Text.PyIntDecimal | api/scrapers/vinted_scraper.py:267 | `int()` reads back the decimal text of any natural number |

## Left out

- Browser and network I/O (the Selenium driver, page loading and waiting)
  are not modelled. The page a driver fetched is a parameter: no content,
  a loaded page, or a page whose parsing raised.
- HTML parsing and CSS selection are not modelled. A page is a tree of
  nodes, each recording what every selector the extractors use finds
  under it. The selector texts are kept as constants.
- The search URL building and its `urlencode` are not modelled. They only
  shape the request the driver sends.
- Motor, Beanie and MongoDB become the `Collection` class, a sequence of
  documents in store order. The mapper's collection and the raw query
  collection are treated as one store. The mapper class sets
  `Settings.collection`, but Beanie reads a collection name only from
  `Settings.name`. So the mapper uses its default, the class name
  `Product_scraping`, which is the collection the query object opens.
- The database connection attempt becomes a parameter, `ConnectOutcome`.
- The listing save and the detail update look documents up by
  `product_id` alone.
- Query.Query.SearchCategories: the similarity score is a parameter
  bounded to 0..100.
- Query.WithId: `str()` of an object id is a parameter, and strings print
  as themselves.
- Query.Query.SearchCategories: the order in which a dictionary of
  categories is visited is not modelled. Every passing key appends the
  same record, so only their number matters.
- Query.AppendHits: the source appends the same dictionary object several
  times and then sets its `id` in place. The model appends equal copies.
  Because every copy gets the same `id`, this makes no observable
  difference.
- Query.Page: a negative limit is read as a limit of its absolute value.
  The driver's single-batch cap for a negative limit is not modelled.
- Query.RegexMatches: it matches a literal, case-insensitive substring
  with ASCII case folding only. The regular-expression engine and Unicode
  case folding are not modelled.
- Text.Lower: only ASCII letters are lower-cased.
- Text.PyInt: it accepts ASCII decimal digits only.
- Python dictionary key order is not modelled. Documents are unordered
  maps.
- Pydantic's type coercions on insert are not modelled. An item that does
  not already have the schema's types is refused, and the save logs and
  skips it.
- The commented-out price-range search is not modelled, because it is not
  live code.
- Logging, `async` scheduling and concurrency are not modelled. Every call
  runs to completion in order.
- The query endpoints in `api/route.py` are not modelled. They are thin
  wrappers around the query object. The multiple-categories endpoint calls
  a method the query object does not define.
- These parts are not part of this model: image upload and analysis, face
  recognition, the chatbot and recommendation code, and the application
  set-up.
- Query.Query.GetAllProduct and the other query methods: the model answers
  `[]` once the bound client is closed. The query code itself only turns a
  raised exception into `[]`. Whether a closed client raises depends on the
  driver version: PyMongo 4 refuses one with `InvalidOperation`, while
  PyMongo 3 reopened it on next use. The model assumes the PyMongo 4
  behaviour. The repository does not decide this.
- Amazon.DetailsRecord: the `colors_images` attribute set beside `colors`
  is not modelled. It is not a field of the record, so `to_dict` never
  exports it.
- Vinted.CardRecord: the protection-price guard tests the price node, not
  the protection node. The model keeps this as written, and
  `Vinted.CardWithoutProtectionDropped` shows its effect.
