# GoKesari models

Dafny models of the parts of GoKesari where several steps have to fit together, with proofs of what they guarantee.
`dafny verify dfyconfig.toml` checks all of them.

| file | models |
|---|---|
| `Catalogue.dfy`, `CatalogueStore.dfy`, `Categorisation.dfy`, `AppliedTables.dfy`, `LaterRestore.dfy`, `ApprovedReport.dfy` | the one-time categorisation: dry run, apply, backup and restore over four tables |
| `Csv.dfy` | the CSV that carries an approved report from the dry run to the apply step (RFC 4180, section 2) |
| `CopyShops.dfy`, `ShopLookups.dfy`, `ShopClashes.dfy`, `ShopCopier.dfy`, `ShopCopyCases.dfy` | copying exported shops into another database, when two rows become one, and small exports for which that happens |
| `Page.dfy`, `LocationWatches.dfy`, `Bridge.dfy` | the page half and the native half of the app's bridge, and both with the channel between them |
| `Url.dfy`, `UrlForms.dfy`, `Navigation.dfy`, `LinkDecisions.dfy`, `DeepLinks.dfy` | the strict URL parser (after the WHATWG URL Standard, section 4.4) and the decisions built on it |
| `RateLimiter.dfy` | the per-address rate limiter |
| `Pkce.dfy` | base64url for PKCE (RFC 4648, sections 4 and 5; RFC 7636, section 4.1) |
| `Heartbeat.dfy` | the delivery partner's location heartbeat |
| `WorkerPool.dfy` | the workers that promote products into the catalogue |
| `Text.dfy` | the JavaScript string operations the others use |

Code that changes state step by step is a class or a method with loops, proved against a specification function or a
stated new state; what the code promises is then proved of those functions over every input or every run.

Where code and comments disagree, or a promise has an edge, the models follow the code and say so:

- The rate limiter's limit per minute is a limit per window: 2·limit − 1 calls can get through in 60 seconds
  (`RateBound`, `BoundReached`).
- A concurrency that is not a number starts no worker, and the promotion reports nothing done (`AllDone`).
- A page of another site that replaces one of the site's own says no hello, so its watches stay on (`SyncedWhenIdle`,
  `WatchOutlivesItsPage`). A watch whose message gets lost is missed until a later message about it or the next page of
  the site (`AlwaysAgree`, `LostWatchIsMissed`).
- A payment page on a gateway's host that starts with `google.` and a path that starts with `/maps` is sent out of the
  app (`NewWindowExactly`, `PaymentPageSentOut`).
- An origin is not always parsed back to itself: `OriginReparses` says exactly when, and `OriginNotReparsed` shows one.
- A fix that answers a position request after the heartbeat was disposed of is not heard, and "unavailable" can be raised
  over it (`UnavailableIsEarned`, `UnheardFixDoesNotCount`).
- A copied product or shop can be filed under a removed category, because lookups by id and slug do not ask whether the
  row is live (`UsedCategoryIsLive`, `RemovedCategoryIsUsed`). Matching a product adds its category even when the
  product itself is matched (`Product`, `CategoryOfMatchedProduct`).
- Two listings of one shop whose products match one product of the target break a unique index and end the whole copy
  (`CopyListings`). An export can do this by itself: of two alike products the second is matched to the first
  (`TwinsMeet`, `TwoMilksMeet`, `Import`).
- The same goes for two kinds of shop that match one (`CopyMappings`, `KindsClash`, `TwoKindsMeet`, `Import`). An export
  of which no two rows can meet goes through unless the database refuses a row (`Import`, `MilkAndCurdGoThrough`).

Outside values are parameters: the time, fresh ids, the database's choice where several rows qualify, case folding
(`fold`, `lower`; the categorisation takes it to be one function in JavaScript and SQL), percent-decoding, and the
category proposed for a product.

## Model

| member | source | states |
|---|---|---|
| Categorisation.RestoreUndoesApply | scripts/categorise-products.ts:514-535 | For every report that was applied, restoring its backup with no other writer in between gives back products, categories, subcategories and links exactly, and no statement of the restore is refused by a foreign key |
| AppliedTables.AppliedExactly | scripts/categorise-products.ts:379-474 | Every row of every table after an applied report, in terms of report and tables alone: which old categories and subcategories are retired and that no other old row changes, which new ones there are and after which row they are named, which links there are and with which columns, and where each product is |
| AppliedTables.AppliedWhen | scripts/categorise-products.ts:346-383 | A report is applied exactly when every row proposes a name and its product is where it was, every live product has a row, and there is a live General category |
| AppliedTables.AnnouncedIsRetired | scripts/categorise-products.ts:239-248 | The categories that the dry run announces end removed and inactive, and every other old category is as it was |
| AppliedTables.AnnouncedExactly | scripts/categorise-products.ts:239-248 | A category is announced exactly when it is live and ordinary, a row moves away from it, none of its rows keeps it, and no row proposes its name |
| LaterRestore.RestoredExactly | scripts/categorise-products.ts:514-535 | What a restore at any later time leaves in each table: products added since stay, rows added since go but for a General category, links are the backup's for the shops there still are |
| LaterRestore.RefusedExactly | scripts/categorise-products.ts:514-535 | A restore at any later time is refused exactly when a product, subcategory or link it leaves refers to a category or subcategory that it deletes |
| Categorisation.RestoredNamesNeverClash | scripts/categorise-products.ts:526-534 | Whichever rows the last UPDATE of the restore has put back so far, no two live categories share a folded name, so the row-by-row unique index never stops it |
| Categorisation.ShopsLoseNothing | scripts/categorise-products.ts:436-467 | After applying, each shop that carried a live product's old category, or lists the product, carries the product's new category, although links of retired categories are deleted |
| Categorisation.LastCheckNeverFails | scripts/categorise-products.ts:470-474 | A report is applied exactly when it passes the checks made before the first write: the final "removed category" check can never stop it |
| Categorisation.NoOrphan | scripts/categorise-products.ts:470-474 | After the whole transaction no live product is in a removed category |
| Categorisation.ReportIsApplied | scripts/categorise-products.ts:387-434 | Every live product ends in the live category a row for it proposes, with that row's subcategory when it moved and unchanged when it did not; a product without a row is untouched, no product comes or goes, live names stay unique |
| Categorisation.Placed | scripts/categorise-products.ts:419-434 | A listed product's final place comes from one of its own rows: that row's category, live and so named, and for a move that row's live subcategory or none |
| Categorisation.DryRunTellsTheTruth | scripts/categorise-products.ts:239-248 | For rows as the dry run writes them the categories it announces for retirement are exactly those the apply step retires |
| Categorisation.BatchesAreOneUpdate | scripts/categorise-products.ts:426-434 | When no product has two moves, the updates in batches of 500 equal one simultaneous update |
| Categorisation.BatchesMove | scripts/categorise-products.ts:426-434 | In any case each product ends as before, if no move names it, or where one of its own moves puts it |
| Categorisation.LastBatchDecides | scripts/categorise-products.ts:426-434 | Of several moves of one product one in the last batch of 500 that names it counts |
| Categorisation.CreatedOk | scripts/categorise-products.ts:387-399 | Creating the missing categories keeps old rows, keeps folded live names unique, keeps the name index right, and leaves every proposed name with a live category |
| Categorisation.OnlyMissingCreated | scripts/categorise-products.ts:387-399 | A created category has one of the proposed names that no live category had, and the details given for that name |
| Categorisation.SubsForOk | scripts/categorise-products.ts:401-417 | Every non-blank proposed subcategory gets a live row of that folded name under the right category; existing subcategories stay as they are |
| Categorisation.ReferencesStay | scripts/categorise-products.ts:379-474 | Applying a report leaves every foreign key of the tables pointing at a row |
| Categorisation.AppliedHasShape | scripts/categorise-products.ts:379-474 | What an apply may have changed in the rows that were there before: retirement of ordinary live categories and their subcategories, nothing else; rows it created are ordinary |
| ApprovedReport.ApprovedPlanIsThePlan | scripts/categorise-products.ts:261-278 | From dry run to apply on unchanged tables: the report reads back as the dry run's rows, is accepted when there is a General category, retires in the tables exactly what was announced, and moves all products as one update |
| ApprovedReport.ReportSurvives | scripts/categorise-products.ts:338-348 | The rows the apply step reads are the rows the dry run wrote, whatever text their cells hold |
| ApprovedReport.ReadsWhatItSays | scripts/categorise-products.ts:222-236 | A row is read from the columns it was written to, by their names |
| Catalogue.PlanRetire | scripts/categorise-products.ts:239-248 | The loops of the dry run's prediction compute: live ordinary categories moved away from, still used by no row and named by no proposal |
| CatalogueStore.Store.LiveByName | scripts/categorise-products.ts:381-382 | The name index built row by row is the index of the live categories |
| CatalogueStore.Store.CreateCategories | scripts/categorise-products.ts:387-399 | The creation loop on the category table and the name index, against its specification |
| CatalogueStore.Store.CreateSubcategories | scripts/categorise-products.ts:401-417 | The subcategory loop on its table and its id map, against its specification |
| CatalogueStore.Store.MoveProducts | scripts/categorise-products.ts:426-434 | The loop over slices of 500 on the product table, against its specification |
| CatalogueStore.Store.Apply | scripts/categorise-products.ts:338-474 | The whole new state of an apply: backup only when the early checks pass, the specified tables (AppliedExactly says row by row which) when the transaction commits, the old tables when it stops |
| CatalogueStore.Store.Restore | scripts/categorise-products.ts:514-535 | The whole new state of a restore, statement by statement with foreign keys checked: the specified tables, or the old ones when a statement is refused |
| Csv.RoundTrip | scripts/categorise-products.ts:92-119 | Parsing a written report gives its rows with some non-blank cell, in order, for any text in the cells |
| Csv.RoundTripEnding | scripts/categorise-products.ts:97-119 | The same when every record ends with CRLF instead of LF |
| Csv.LastLineEnd | scripts/categorise-products.ts:115 | A line end at the end of any text makes no difference, unless the text ends inside quotes |
| Csv.RoundTripOpen | scripts/categorise-products.ts:115 | So a report whose last record has no line end reads back the same |
| Csv.CellExactly | scripts/categorise-products.ts:93 | A cell is quoted exactly when it holds a quote, a comma or a line end |
| Csv.NothingDropped | scripts/categorise-products.ts:116-118 | A report whose rows are complete and not blank comes back unchanged |
| Csv.ScanCell | scripts/categorise-products.ts:93 | The parser reads back one written cell: quotes, commas and line breaks inside it included |
| Csv.ScanRecord | scripts/categorise-products.ts:94 | The parser reads back one written record and is ready for the next |
| Csv.ReadRecords | scripts/categorise-products.ts:97-114 | The character loop computes the specified scan |
| Csv.ParseCsv | scripts/categorise-products.ts:97-119 | The parser as a whole: the rows, or a refusal when a column is missing |
| Bridge.AlwaysAgree | mobile/src/bridge-script.ts:133-145 | In every run, reloads, missing channels and turned-away messages included, replaying the messages under way over the native map's keys agrees with the last bridged page on a watch exactly when that watch is not missed, which the run's own losses decide |
| Bridge.SyncedWhenIdle | mobile/src/App.tsx:274-294 | With nothing under way, on a bridged page both sides hold the same watches exactly when none is missed; and when none is missed, exactly when the shown page is a bridged one or the last bridged one had none |
| Bridge.DeviceMatchesPage | mobile/src/bridge.ts:169-213 | Once everything has settled the device reports once for an id, and for a live watch exactly when that one is not missed |
| Bridge.WatchOutlivesItsPage | mobile/src/bridge-script.ts:40-41 | A concrete run in which another site's page replaces a watching page: it says no hello, and the watch stays on |
| Bridge.LostWatchIsMissed | mobile/src/App.tsx:268 | A concrete run in which the dispatcher turns a watch away: the page keeps it, the native side never has it |
| Bridge.StepInv | mobile/src/App.tsx:260-294 | Every step of page, channel and native side keeps a watch agreed exactly while it is not missed |
| Bridge.LosslessAgrees | mobile/src/bridge-script.ts:49-55 | When every call finds its channel and every message is accepted, no watch is ever missed |
| Bridge.ArrivesInOrder | mobile/src/bridge-script.ts:232-251 | In every run the page receives what native sent, in that order, one message at a time: a position or error for a live watch of the shown page runs its callback, a reply settles its request, and nothing else changes |
| Bridge.PostedInOrder | mobile/src/bridge-script.ts:49-55 | The dispatcher receives what the pages posted, in that order: a hello from each page of the site, requests and watches under their ids, clears of live watches |
| Bridge.NativeIsItsOwnRun | mobile/src/App.tsx:274-294 | The native half of a run is a run of the watches alone over the accepted messages and the device's events |
| Bridge.PageIsItsOwnRun | mobile/src/bridge-script.ts:40-41 | The page half is a run of the last page alone over its calls and the messages that arrived while it was shown |
| Bridge.Dispatcher.OnMessage | mobile/src/App.tsx:268-294 | What the dispatcher does to the watches for each kind of message, and nothing for one without the token or from elsewhere, keeping their invariant |
| Page.RequestsMatch | mobile/src/bridge-script.ts:57-69 | Within one page: a request settles at most once, with the first reply to its own id, and pending is exactly the posted, unanswered requests, under any replies |
| Page.AlwaysMatched | mobile/src/bridge-script.ts:232-239 | The same bookkeeping as an invariant of every run |
| Page.WatchersAreLive | mobile/src/bridge-script.ts:133-145 | A watcher is registered exactly while it has been started and not cleared since |
| Page.DoneExactly | mobile/src/bridge-script.ts:49-69 | By the events alone, every message that is posted and every callback that is run, with a position or an error: for a live watch, and none otherwise |
| Page.IdsInOrder | mobile/src/bridge-script.ts:57-58 | Request and watch ids count up from 1 |
| Page.NoCallbackAfterClear | mobile/src/bridge-script.ts:240-247 | No callback of a watch runs after it was cleared, when its id had been given out by then |
| Page.EarlyClearIsLost | mobile/src/bridge-script.ts:140-144 | A concrete run: clearing an id before it is given out does nothing for the watch that later gets it |
| Page.Script.Post | mobile/src/bridge-script.ts:49-55 | Posting: a message goes out only when there is a channel |
| Page.Script.Request | mobile/src/bridge-script.ts:57-69 | A request's whole effect on ids, pending, settlements and the channel |
| Page.Script.WatchPosition | mobile/src/bridge-script.ts:133-139 | Starting a watch: id, registration and message |
| Page.Script.ClearPosition | mobile/src/bridge-script.ts:140-144 | Clearing a watch: nothing for an unknown id, else removal and message |
| Page.Script.ReceiveMessage | mobile/src/bridge-script.ts:232-251 | Receiving a message: which request is settled and which watch is called back |
| LocationWatches.NoLeak | mobile/src/bridge.ts:169-213 | In every interleaving a subscription is held with no removal scheduled, or not held with exactly one, run at most once; when all has settled the active ones are the granted ones held |
| LocationWatches.StepInv | mobile/src/bridge.ts:174-212 | Every start, stop, stopAll, settlement, removal and device callback keeps that |
| LocationWatches.SentIsHeld | mobile/src/bridge.ts:181-201 | Whatever is sent to the page is for an id the map holds |
| LocationWatches.SentExactly | mobile/src/bridge.ts:181-201 | By the events alone: a device callback or a refusal is sent exactly when its watch was started and not stopped since, and nothing else is sent |
| LocationWatches.HeldExactly | mobile/src/bridge.ts:174-212 | The map holds a watch exactly when it was started and not stopped since |
| LocationWatches.TicketsMade | mobile/src/bridge.ts:174-202 | A start asks the device once when the watch is not held, and no other event does |
| LocationWatches.TicketExactly | mobile/src/bridge.ts:177-208 | A promise is granted, refused or removed exactly by the event that says so |
| LocationWatches.ActiveAreHeld | mobile/src/bridge.ts:204-212 | When all has settled, a subscription is on exactly when it is held and was granted |
| LocationWatches.Watches.StartWatch | mobile/src/bridge.ts:174-202 | Starting: nothing for a known id, else one new promise under it |
| LocationWatches.Watches.StopWatch | mobile/src/bridge.ts:204-208 | Stopping: the id leaves the map and one removal is chained |
| LocationWatches.Watches.StopEvery | mobile/src/bridge.ts:210-212 | The loop over a copy of the keys empties the map and chains one removal for each held promise |
| LocationWatches.Watches.PromiseSettled | mobile/src/bridge.ts:177-200 | A promise settles; a failure is reported only while its id is held |
| LocationWatches.Watches.FromDevice | mobile/src/bridge.ts:181-188 | A position or error is passed on exactly while its id is held |
| Url.RoundTrip | mobile/src/url.ts:26-65 | Parsing undoes printing for all well-formed http(s) parts |
| Url.OriginReparses | mobile/src/url.ts:67-71 | The origin of a parsed http(s) URL parses to the same scheme, host and port exactly when these are canonical |
| Url.OriginNotReparsed | mobile/src/url.ts:58-71 | There is such a URL: https://a.. parses to the host "a.", whose origin parses to another |
| Url.SameOriginExactly | mobile/src/url.ts:73-77 | A page has the site's origin exactly when its scheme, and its host and port together, are the site's; each part then agrees when neither host holds a colon |
| Url.BackslashIsSlash | mobile/src/url.ts:33 | For http(s), replacing every backslash by a slash never changes the parse |
| Url.UserInfoIgnored | mobile/src/url.ts:52-60 | User information free of delimiters in front of the authority never changes the parse |
| Url.UserInfoAlone | mobile/src/url.ts:62 | In front of a slash it leaves no host, and the URL is refused |
| Url.ParseUnder | mobile/src/url.ts:26-65 | Any text after a canonical origin that ends the authority is parsed under that origin |
| Url.ParsedHost | mobile/src/url.ts:56-62 | What every parsed http(s) URL satisfies: a non-empty lower-cased host without delimiters, a port of digits that is not the default |
| UrlForms.AnySlashes | mobile/src/url.ts:28-54 | http and https URLs in any letter case and with any number of slashes of either kind parse like the plainly written one |
| UrlForms.NoSlashes | mobile/src/url.ts:52-62 | Without any slash behind the scheme they are refused |
| UrlForms.PortExactly | mobile/src/url.ts:57-61 | A final dot of the host goes, and so do the port 80 of http, 443 of https and a colon without a port; any other port stays |
| UrlForms.OtherScheme | mobile/src/url.ts:49-64 | Another scheme's URL without two slashes has no host, but a path, a query and a fragment |
| UrlForms.OtherAuthority | mobile/src/url.ts:52-64 | With two slashes it has a host, its port whatever it is, and its path, which may be empty |
| UrlForms.LowerLetters | mobile/src/url.ts:31 | A scheme's capital letters are lower-cased and nothing else is |
| UrlForms.HostsShared | mobile/src/url.ts:73-77 | Only URLs with a host have an origin in common |
| UrlForms.PlusIsSpace | mobile/src/url.ts:90-96 | Each plus sign of a parameter is read as a space |
| Text.TrimExactly | mobile/src/url.ts:27 | Trimming takes white space and line ends off both ends and nothing else |
| Text.SpacesExactly | mobile/src/url.ts:27 | Which characters those are, by their code units |
| Url.QueryParam | mobile/src/url.ts:80-88 | The loop finds the first pair whose decoded key is the name |
| Url.QueryRoundTrip | mobile/src/url.ts:80-96 | A written parameter is read back as the first value given to its name |
| Navigation.NewWindowExactly | mobile/src/navigation-policy.ts:141-150 | A link opening a new window stays in the app exactly when it is the site's own page or an https page of a payment host not also taken for an app's own page |
| LinkDecisions.LoadsExactly | mobile/src/navigation-policy.ts:53-65 | For every text, site and frame: the page loads in place exactly for the four schemes of the WebView and for http(s) pages that are the site's own, in a subframe, or neither the sign-in host nor one with its own app |
| LinkDecisions.SignsInExactly | mobile/src/navigation-policy.ts:62 | Google sign-in exactly for its host, on top and not the site's own |
| LinkDecisions.BlocksExactly | mobile/src/navigation-policy.ts:53-83 | Dropped exactly: text that is no URL, the four blocked schemes, an intent with nothing to open |
| LinkDecisions.OpensExactly | mobile/src/navigation-policy.ts:59-88 | Sent out as it is exactly: hosts with their own app on top, and every scheme not named elsewhere |
| LinkDecisions.NewWindowOtherwise | mobile/src/navigation-policy.ts:141-150 | A new window differs from the whole window only in that other sites' pages go to the browser unless they are payment pages, and that what only a WebView shows is dropped |
| LinkDecisions.OwnAppExactly | mobile/src/navigation-policy.ts:33-48 | The hosts with their own app, spelled out: six names, and Google's and Apple's maps with or without www |
| LinkDecisions.PaymentExactly | mobile/src/navigation-policy.ts:133-138 | A payment host is one of three names or under one of them |
| LinkDecisions.IntentPartsExactly | mobile/src/navigation-policy.ts:94-96 | An intent link is read exactly when its trimmed text has the form of one |
| LinkDecisions.FieldsExactly | mobile/src/navigation-policy.ts:97-101 | A field has a value exactly when the last part with its key gives it |
| LinkDecisions.IntentAsks | mobile/src/navigation-policy.ts:103-120 | What a link asks for, exactly: its target under a good scheme, a well-formed package, a fallback that decodes to an http(s) page |
| LinkDecisions.IntentDecision | mobile/src/navigation-policy.ts:67-83 | It opens its target, else its fallback, else the store, else nothing |
| Navigation.PaymentPageSentOut | mobile/src/navigation-policy.ts:141-150 | For every gateway, https://google.<gateway>/maps is a payment page by its host and yet a new window for it is sent out of the app |
| Navigation.OwnPageLoads | mobile/src/navigation-policy.ts:50-58 | The site's own pages load in place, in every frame and for new windows |
| Navigation.PaymentIsNotSignIn | mobile/src/navigation-policy.ts:133-138 | No payment host is the sign-in host |
| Navigation.IntentRoundTrip | mobile/src/navigation-policy.ts:91-120 | A link naming an app scheme and package is rebuilt for them with the target it carries |
| Navigation.ReadFields | mobile/src/navigation-policy.ts:97-101 | The field loop computes the map of the parts with a name, later ones winning |
| DeepLinks.OpensOnlySitePages | mobile/src/deep-links.ts:62-78 | Whatever a notification carries, what opens in the app is an allowed page of the site, which both navigation decisions load |
| DeepLinks.OutsideIsElsewhere | mobile/src/deep-links.ts:73-76 | What goes to the browser is an https link that is not such a page |
| DeepLinks.InSitePath | mobile/src/deep-links.ts:70-72 | An in-site path opens under the site's origin, or the notification centre when its path is excluded |
| DeepLinks.TargetExactly | mobile/src/deep-links.ts:62-78 | Where every notification goes: the allowed page of the site that its path or full link names, else an https link to the browser, else the notification centre |
| DeepLinks.CentreIsSitePage | mobile/src/deep-links.ts:66 | The notification centre is itself an allowed page of the site |
| RateLimiter.RateBound | src/proxy.ts:32-44 | In any 60-second span of any run with a clock that does not go back, one address gets at most 2·limit − 1 calls through |
| RateLimiter.BoundReached | src/proxy.ts:32-44 | For every whole limit a run reaches that bound, so the limit is not a bound per minute |
| RateLimiter.RefusedOnlyWhenFull | src/proxy.ts:42-43 | A call is refused only when a full window's worth of its address's calls got through since its window began, within the last 60 seconds |
| RateLimiter.SweepInvisible | src/proxy.ts:34-36 | The limiter with its sweep answers every call as one that never deletes an entry |
| RateLimiter.SweptExactly | src/proxy.ts:34-36 | With more than ten thousand addresses all expired entries go before a call is counted, and otherwise none |
| RateLimiter.AlwaysAccounted | src/proxy.ts:37-43 | An entry's count always accounts for the calls its window let through |
| RateLimiter.Limiter.Sweep | src/proxy.ts:34-36 | The loop deletes exactly the expired entries |
| RateLimiter.Limiter.RateLimited | src/proxy.ts:32-44 | One call's answer and the map after it |
| Pkce.RoundTrip | mobile/src/pkce.ts:5-22 | Decoding undoes encoding for all byte sequences, so encoding is injective |
| Pkce.UrlShape | mobile/src/pkce.ts:5-22 | The result has ceil(4n/3) characters, all from the URL-safe alphabet without padding |
| Pkce.StandardConverts | mobile/src/pkce.ts:20-22 | Converting the padded standard encoding gives the same string |
| Pkce.BytesToBase64Url | mobile/src/pkce.ts:5-17 | The step-3 loop, with its shifts and masks on bytes, computes the specified encoding of their values |
| Pkce.BitOperations | mobile/src/pkce.ts:11-14 | Each of the loop's four shift-and-mask expressions is the quotient and remainder the specification cuts |
| Pkce.AlphabetLiteral | mobile/src/pkce.ts:3 | The alphabet the encoding is proved about is the source's literal, character by character |
| ShopCopier.Import | scripts/copy-shops/copy-shops.ts:307-357 | A plan or a run that stops changes nothing; a copy only adds, keeps all references good, adds no live twin, leaves every shop of the export there, the new ones complete and exactly the rows to be copied, numbered in their order, and reports the true totals; it stops for sure when a shop to be copied has two products or two kinds that become one; a whole export whose rows cannot meet and whose owners have the same e-mail is stopped by nothing but the database |
| ShopCopier.ImportTwice | scripts/copy-shops/copy-shops.ts:42 | A second run of the same export after a good one writes nothing; one that stops has written nothing |
| ShopCopier.Copier.CopyShops | scripts/copy-shops/copy-shops.ts:536-656 | The shop loop: all exported shops are there in the end; the new ones are exactly the rows with no shop in their way, each as exported under its owner's account and its turn's number, and complete; copied and skipped add up; what stops it is named |
| ShopCopier.Copier.CopyShop | scripts/copy-shops/copy-shops.ts:563-656 | One shop more: the exported row under its owner's account, the next number and its own address if that is free, complete with kinds, listings and chosen categories, with every earlier shop kept complete |
| ShopCopier.Copier.StateIsClosed | scripts/copy-shops/copy-shops.ts:359-656 | At any point of a run every foreign key points at a row of the target |
| ShopCopier.Copier.StateIsGrown | scripts/copy-shops/copy-shops.ts:359-656 | At any point no row of the target is lost or changed, but for customers becoming shop owners; no new shop has a live twin; totals count the added rows |
| ShopCopier.Copier.InsertShop | scripts/copy-shops/copy-shops.ts:563-593 | One shop row more, the exported one under its translated owner, with the next registration number and its own address if that is free; other tables only gain the owner's account |
| ShopCopier.Copier.Owner | scripts/copy-shops/copy-shops.ts:374-409 | Said of the rows: the account used has the owner's id, else is live with its real e-mail, else live with its phone; exactly when there is none one is added as exported, a live shop owner; either way it has the grant, a customer becomes shop owner, no other account changes; memoised |
| ShopCopier.Copier.ProductCategory | scripts/copy-shops/copy-shops.ts:411-426 | Said of the rows: a category is found by id, slug or live folded name in that order; exactly when it is looked up for the first time and there is none it is added as an ordinary live row; memoised |
| ShopCopier.Copier.Subcategory | scripts/copy-shops/copy-shops.ts:428-441 | Said of the rows: found by id or slug, and exactly when there is none added live under its own translated category; memoised |
| ShopCopier.Copier.Brand | scripts/copy-shops/copy-shops.ts:443-454 | Said of the rows: found by id or slug, and exactly when there is none added live; memoised |
| ShopCopier.Copier.Product | scripts/copy-shops/copy-shops.ts:491-534 | Said of the rows: found by id, by the barcode of a live one, or as the only live one of its name, variant, unit, size and translated category; exactly when there is none the exported row is added under the next code, with its own address if that is free and its references translated; beside a matched product its category is added exactly when that is new and matches nothing; memoised |
| ShopCopier.Copier.AddProduct | scripts/copy-shops/copy-shops.ts:513-533 | The row added: the exported one under the given code, its own address if that is free, its category, subcategory and brand translated |
| ShopCopier.Copier.KindRow | scripts/copy-shops/copy-shops.ts:598-608 | Said of the rows: a kind is found by id, slug or folded name in that order, and exactly when there is none added as exported |
| ShopCopier.Copier.CopyMappings | scripts/copy-shops/copy-shops.ts:598-610 | Each kind of the shop is looked up by id, slug or name in the table the kinds before it left, added when nothing matches, and linked; it clashes exactly when the rows used are not distinct or linked already; with exported slugs distinct, kinds that meet on the target as it was always clash, and those of a shop without links clash only when two of them may meet |
| ShopCopier.Copier.InsertListings | scripts/copy-shops/copy-shops.ts:620-622 | One insert of all rows: unless the database refuses it for another reason, it goes through exactly when ids are new and distinct and so are the pairs of shop and product |
| ShopCopier.Copier.CopyListings | scripts/copy-shops/copy-shops.ts:612-622 | Every exported listing of the shop is inserted with its product translated; when no row is missing or refused by the database it goes through exactly when the translated listings have new, distinct ids and new, distinct pairs of shop and product, and otherwise stops on a clash |
| ShopCopier.Copier.CopyChosen | scripts/copy-shops/copy-shops.ts:629-635 | Every product category the shop chose is linked, translated |
| CopyShops.Numbers.Next | scripts/copy-shops/copy-shops.ts:291-305 | Plan and copy give consecutive numbers from the same first one; a plan takes none from the sequence |
| CopyShops.Pick | scripts/copy-shops/copy-shops.ts:413-417 | The chain of lookups gives a row of the first that finds any, else the exported row's own id |
| ShopLookups.UserFoundBy | scripts/copy-shops/copy-shops.ts:374-390 | The chain of lookups for an owner, said of the rows: id, real e-mail of a live user, phone of a live user; and when it finds none |
| ShopLookups.CategoryFoundBy | scripts/copy-shops/copy-shops.ts:413-418 | The same for a category: id, slug, folded name of a live one |
| ShopLookups.SubcategoryFoundBy | scripts/copy-shops/copy-shops.ts:430-434 | The same for a subcategory: id, slug |
| ShopLookups.BrandFoundBy | scripts/copy-shops/copy-shops.ts:445-449 | The same for a brand: id, slug |
| ShopLookups.ShopKindFoundBy | scripts/copy-shops/copy-shops.ts:601-605 | The same for a kind of shop: id, slug, folded name |
| ShopLookups.ProductFoundBy | scripts/copy-shops/copy-shops.ts:495-508 | The same for a product: id, barcode of a live one, the only one of its label |
| ShopLookups.SkippedExactly | scripts/copy-shops/copy-shops.ts:542-562 | A row is skipped exactly when a shop of the target, or one copied before it, has its id, its live name in the PIN code, or its Shop Act registration |
| CopyShops.UsedCategoryIsLive | scripts/copy-shops/copy-shops.ts:414-417 | The category used is live exactly unless a removed one holds the exported category's id, or, the id being free, its slug |
| ShopCopyCases.RemovedCategoryIsUsed | scripts/copy-shops/copy-shops.ts:414-417 | A concrete target: its removed category with the exported slug is the one used |
| ShopCopyCases.CategoryOfMatchedProduct | scripts/copy-shops/copy-shops.ts:491-500 | A concrete target: the product is found by its id, and its exported category matches no row, so it is added for nothing |
| CopyShops.TwinsMeet | scripts/copy-shops/copy-shops.ts:491-534 | Two exported products without barcodes and alike in folded name, variant, unit, size and category, new to the target, are used for one row of it |
| CopyShops.CopiedListsNoTwins | scripts/copy-shops/copy-shops.ts:612-622 | So no shop that was copied whole lists two such products |
| CopyShops.LoneIsCopied | scripts/copy-shops/copy-shops.ts:547-562 | A shop like no other exported one and not found on the target is copied, not skipped, in a run that goes through |
| ShopClashes.KindsClash | scripts/copy-shops/copy-shops.ts:598-610 | Of any kinds looked up one after the other: kinds that meet on the table as it was are used as one row, and kinds used as one row may meet there |
| ShopClashes.MeetExactly | scripts/copy-shops/copy-shops.ts:602-605 | On a table with unique slugs and folded names kinds may meet exactly when they do, so the two conditions are one |
| ShopClashes.KindsMeetStays | scripts/copy-shops/copy-shops.ts:598-610 | What is said of the kinds on the target before a run holds of the table at any point of it |
| ShopClashes.ApartAllFit | scripts/copy-shops/copy-shops.ts:612-622 | A shop's translated listings fit beside one another and the target's when no row of target or export could be used for two of its products |
| ShopCopyCases.TwoMilksMeet | scripts/copy-shops/copy-shops.ts:612-622 | A concrete export that is whole, with nothing in its way on an empty target, that can never be copied: its shop lists one milk twice |
| ShopCopyCases.MilkAndCurdGoThrough | scripts/copy-shops/copy-shops.ts:612-622 | The same shop with two different products is stopped by nothing but the database |
| ShopCopyCases.TwoKindsMeet | scripts/copy-shops/copy-shops.ts:598-610 | A concrete whole export and a target with unique slugs and names on which it can never be copied: one kind has the slug, the other the name of the target's only kind |
| ShopCopyCases.SlugMeetsName | scripts/copy-shops/copy-shops.ts:602-605 | In general: a kind with the slug and a kind with the name of one row meet there |
| CopyShops.UserStep | scripts/copy-shops/copy-shops.ts:374-409 | One owner more keeps what the owner map and the user table mean |
| CopyShops.ProductsClosed | scripts/copy-shops/copy-shops.ts:514-527 | Products on the target, old and added, refer only to rows of the target |
| CopyShops.ShopAdded | scripts/copy-shops/copy-shops.ts:547-593 | A shop inserted after the twin lookup found nothing leaves no live twins and numbers that differ |
| CopyShops.CompleteStays | scripts/copy-shops/copy-shops.ts:536-656 | Copying further shops leaves a copied shop complete |
| Heartbeat.Safe | src/components/delivery-partner-dashboard.tsx:250-285 | In every event order: at most one post unanswered, posts at least the interval apart, every posted fix at most two minutes old on both clocks |
| Heartbeat.AtMostOneInFlight | src/components/delivery-partner-dashboard.tsx:250-285 | At most one post is unanswered and at most one position request open |
| Heartbeat.RequestRate | src/components/delivery-partner-dashboard.tsx:250-259 | n + 1 posts need a span of at least n intervals |
| Heartbeat.NothingAfterDisposal | src/components/delivery-partner-dashboard.tsx:319-325 | After disposal nothing is posted, whatever still arrives |
| Heartbeat.UnavailableIsEarned | src/components/delivery-partner-dashboard.tsx:212-222 | In every event order, disposals included, "unavailable" stands exactly when there is an error, the first since the last fix that was heard, and an error that is heard two minutes later, or when the last life of the effect left it and no fix has been heard since |
| Heartbeat.UnheardFixDoesNotCount | src/components/delivery-partner-dashboard.tsx:225-248 | A concrete run with a fix between the two errors, the answer to a request that the disposal overtook: the alert is raised over it |
| Heartbeat.SentExactly | src/components/delivery-partner-dashboard.tsx:200-285 | One event more in every run: a post goes out exactly on a heard fix or a tick before disposal with nothing unanswered, the interval over and the last heard fix at most two minutes old on both clocks, and it carries that fix's place and clocks; a position is asked for exactly when that fix is missing or old and none is open or denied; blocked exactly by a denial or a throwing browser until a fix is heard |
| Heartbeat.StepInv | src/components/delivery-partner-dashboard.tsx:200-285 | Every event keeps the invariant, and posts are never taken back |
| Heartbeat.Effect.Remember | src/components/delivery-partner-dashboard.tsx:200-210 | What a fix sets |
| Heartbeat.Effect.Fail | src/components/delivery-partner-dashboard.tsx:212-222 | What an error sets, denial apart |
| Heartbeat.Effect.Refresh | src/components/delivery-partner-dashboard.tsx:225-248 | When a fresh fix is asked for, and what a throwing request sets |
| Heartbeat.Effect.SendIfDue | src/components/delivery-partner-dashboard.tsx:250-285 | When a post goes out, when a fresh fix is asked for instead |
| Heartbeat.Effect.Handle | src/components/delivery-partner-dashboard.tsx:195-325 | The hook's whole new state for each event |
| WorkerPool.Conservation | scripts/pmd/promote.ts:84-108 | After any interleaving: no candidate is taken twice or tried more than five times, and promoted + adopted + failed = done |
| WorkerPool.TriedExactly | scripts/pmd/promote.ts:90-105 | The counters are what the attempts came to, and each candidate is tried until one attempt is no clash, or five times: then it has failed with ERROR |
| WorkerPool.WorkersAsked | scripts/pmd/promote.ts:33 | As many workers as asked for, but at least one and at most 32 |
| WorkerPool.Terminates | scripts/pmd/promote.ts:86-107 | No run is longer than six steps a candidate and one a worker, and a run is stuck exactly when all workers have finished |
| WorkerPool.AllDone | scripts/pmd/promote.ts:33 | When all workers have finished, all candidates are done exactly when the concurrency is a number or there was nothing to do |
| WorkerPool.StepInv | scripts/pmd/promote.ts:86-107 | Every step keeps the invariant and uses up budget |
| WorkerPool.Pool.TakeNext | scripts/pmd/promote.ts:88-89 | Taking the shared next candidate, or finishing |
| WorkerPool.Pool.HandleAttempt | scripts/pmd/promote.ts:90-105 | One attempt's outcome: counted, retried on code 23505 below five attempts, or failed |

## Left out

- SQL text, connections, locks and time-outs: each statement is its effect on the tables, each transaction is kept or undone whole.
- Audit rows, `updated_at`, console reports, spreadsheets, hashing of the report and the actor check.
- Slugs of categories the categorisation creates, and the details `targetFor` gives a new category: details are an arbitrary function, slugs are not modelled.
- `categoriseProduct`, `cleanCategoryName` and the order of products in a report: proposals are an arbitrary function and the order any order.
- Catalogue.PlanRetire: the shop-link summary of the dry run is not modelled, because it is only printed.
- CatalogueStore.Store.Apply: the other columns of a new link are one given text, and a category's columns are the ones the restore covers.
- Photos and image bytes, consents and audit rows of the shop copy, and the export step: foreign data that no other row depends on.
- ShopCopier.Import: the target may refuse any insert for a reason the model does not know, which ends the run; a plan is therefore not claimed to foresee every refusal of the later copy, nor, as the database may choose differently among several rows that qualify, to report the later copy's tally; only its numbers are claimed. Numbers taken by a failed copy are lost, as in a real sequence.
- ShopCopier.Copier.Product: that a matched or added subcategory belongs to the product's own category is not claimed; the code does not look.
- CopyShops.Numbers.Next: the zero-padded text of a number is not modelled, the number stands for it.
- Page.RequestsMatch: holds within one page; ids restart with every page, so replies that arrive after a reload are not matched.
- Bridge.AlwaysAgree: the channel is taken to exist when a page installs the bridge, so that hello is each page's first message; every later call may find none, and every message may be turned away. A page that the browser restores from its back-forward cache, with its watchers and without a hello, is not among the pages.
- Heartbeat.Safe: one life of the effect; re-arming after a denial, or another interval, endpoint or switch, starts a new one whose first post does not wait. Each handler reads each clock once. Replies' effects on the rest of the page are left out.
- Url.RoundTrip: characters stand for UTF-16 code units; Unicode lower-casing is a parameter with the laws in `LowerLaws`.
- Navigation.PlayStoreUrl: percent-encoding of a package name in a store link is the identity on the characters allowed in one.
- DeepLinks.OpensOnlySitePages: `deepLinkKind`, used for logs only, is not modelled.
- RateLimiter.RateBound: the clock is taken not to go back, and `x-forwarded-for` is not parsed; the rest of the proxy is not modelled.
- WorkerPool.Conservation: what a promotion does in the database is one of four outcomes of an attempt.
- JavaScript objects used as maps: keys such as `__proto__` are not treated specially.
- The desktop connector, orders, wallets, subscriptions, forms, and the website's pages: not part of these models.
