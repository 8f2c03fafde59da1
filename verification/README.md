# Travel agency site: upload pipeline, form routes and page logic in Dafny

This project models the travel agency website's back end and the list and form logic of its pages. It proves properties of that model.

The back end (`backend/server.js`) is modelled as follows:
- **CORS.** The `origin` callback is modelled with its localhost pattern and its list of allowed origins. The global `cors` stage runs before every route. A refused origin is answered 500 by the error handler, and nothing behind the stage runs. `Upload.UploadRequest`, `Upload.GalleryRequest`, `MailForms.ContactRequest`, `MailForms.BookingRequest` and `Cors.ServeUpload` model whole requests with the stage in front. `PostUpload`, `GetGallery`, `PostContact` and `PostBooking` model the route handlers behind it.
- **Photo upload.** The pipeline is modelled as three stages:
  - the multer stage: the `photos` field, ten files at most, the type filter, the 5 MB limit and the stored file names;
  - the upload route: the checks, the records built and the catalog append;
  - the catalog reader: `GET /api/gallery`.
- **Static files.** A request under `/api/uploads` passes the global `cors` stage first, then the header middleware of `/api/uploads` and the static handler behind it.
- **Error handler.**
- **Contact and booking routes.** Their ordered checks, the defaults and sanitising, and their replies.

The pages are modelled as follows:
- **Gallery.** The category filter, plus the lightbox index that steps with JavaScript's `%`.
- **Tours.** Type and duration filters, the stable sort with its five orders, and the card expressions.
- **Blog.** Search, category, the featured post and the grid.
- **Destinations.** Search, category, the unused sort selector and the summary line.
- **The two upload clients.** `PhotoUpload.jsx` and `PhotoUploadForm.jsx`: file selection, removal, the requests they build and how they react to the reply.
- **Booking form.** `BookingModal.jsx`: its field transitions, the option list, the payload and the reset.

The client requests are built from the server's own types. This means each client can be run against the server model: `PhotoUpload.PageUploadRejected`, `PhotoUploadForm.FormUploadSucceeds` and `BookingModal.ModalAgreesWithServer` do this.

Modules:

| file | module | what |
|---|---|---|
| js_values.dfy | JsValues | `Option` (`undefined`), truthiness of strings, `\|\|` on strings, truncating `%` |
| text.dfy | Text | ASCII lower-casing, `includes`, JavaScript `trim`, decimal printing, `parseInt` |
| seqs.dfy | Seqs | `filter`, `find`, removal by index, stable `sort` with a numeric comparator |
| backend.dfy | Backend | reply shape, error handler, `sanitizeInput` |
| cors.dfy | Cors | the `origin` callback, the `/api/uploads` middleware and static handler |
| upload.dfy | Upload | multer stage, upload route, catalog reader |
| mail_forms.dfy | MailForms | contact and booking routes |
| gallery.dfy, tours.dfy, blog.dfy, destinations.dfy | Gallery, Tours, Blog, Destinations | the pages |
| photo_upload.dfy, photo_upload_form.dfy, booking_modal.dfy | PhotoUpload, PhotoUploadForm, BookingModal | the upload clients and the booking form |

Everything the server reads from outside is a field of `Upload.Services`, and every such field is a total function: `uuidv4()`, `Date.now()`, `Math.random()`, `new Date().toISOString()`, `validator.escape` and `validator.isEmail`. Each time-varying service is indexed by the position of the file in the request. File-system and mail failures are parameters:
- `Upload.CatalogWrite`: how the upload route's catalog step ends. It is written in full, fails with the file untouched, or fails after `writeFileSync` has truncated the file;
- `readOk`: the gallery reader throws;
- `mailOk`: sending mail fails.

Either route also throws when `gallery.json` holds valid JSON that is not an array, and its parameter covers that case too.

Where the code and the design description differ, the model follows the code:
- **Gallery page.** The page never fetches the catalog. It shows only its fifteen fixture photos, and its "Load More Photos" button has no handler (src/pages/Gallery.jsx:278-284). So `Gallery` filters the fixtures only.
- **Multer stage.** The stage is as multer behaves: files are checked in stream order and the first failing file aborts the request.

## Model

| member | source | states |
|---|---|---|
| Backend.HandleError | backend/server.js:642-657 | A multer error with code `LIMIT_FILE_SIZE` gets status 400 with the size message. Every other error (other multer codes, the file-filter error, the CORS error) gets 500 "Internal server error.". |
| Backend.SanitizeIgnoresSurroundingSpace | backend/server.js:129-131 | White space around an input never reaches the escaper: `sanitizeInput(pad + s + pad) == sanitizeInput(s)`. |
| Cors.AllowedOrigins | backend/server.js:36-42 | The allowed list is the four development origins plus `FRONTEND_URL` when that is set and non-empty. |
| Cors.MatchesLocalhostIff | backend/server.js:31 | `/^https?:\/\/localhost:\d+$/` matches exactly "http://localhost:" or "https://localhost:" followed by one or more digits and nothing else. |
| Cors.CheckOriginSpec | backend/server.js:26-49 | An origin is allowed iff one of these holds: it is absent, it matches the localhost pattern, it is a development origin, or it is the configured front-end URL. |
| Cors.CorsReply | backend/server.js:48 | A rejected origin becomes an error that is answered 500 with the internal-error message. An allowed origin gets no reply from the callback; for an OPTIONS preflight the `cors` package itself then answers 204 (see `Cors.ServeUpload`). |
| Cors.LocalhostPortAllowed | backend/server.js:31-33 | Localhost with any explicit port passes on http and on https, whatever `FRONTEND_URL` is. |
| Cors.BareLocalhostRejected | backend/server.js:31 | "http://localhost" without a port is rejected unless it is the configured front-end URL. |
| Cors.TrailingSlashRejected | backend/server.js:31 | "http://localhost:5173/" is rejected because the `$` anchor refuses the trailing slash. |
| Cors.UploadsMiddleware | backend/server.js:603-633 | The allowed origin echoes a listed development origin and is "*" otherwise. Methods are "GET, HEAD, OPTIONS" and credentials "true". OPTIONS is answered at once. |
| Cors.ServeUpload | backend/server.js:24-51 | The global `cors` stage runs first. An origin it rejects gets 500 "Internal server error." whatever the file or verb, and an allowed OPTIONS request gets the `cors` package's 204, so the middleware's own OPTIONS answer at lines 627-630 is never reached. Otherwise GET or HEAD of a stored name serves that file with the one-year cache directive (lines 634-639), and anything else falls through to the 404 handler, with the middleware's headers in both cases. |
| Cors.ForeignOriginRefused | backend/server.js:26-49 | "https://evil.example" never receives an uploaded file: unless it is the configured front-end URL, every request from it is answered 500 before the uploads middleware runs. |
| Cors.WildcardOnlyForOtherAllowedOrigins | backend/server.js:611-616 | A served file carries "*" iff the origin is not a development origin. In that case the `cors` stage admitted the request because it had no origin, another localhost port, or the configured front-end URL. |
| Upload.Extname | backend/server.js:87 | `path.extname` returns "" or a suffix of the name that starts with its only '.'. |
| Upload.StorageNameKeepsExtension | backend/server.js:83-89 | The stored name `photos-<time>-<random><ext>` has the same extension as the uploaded name. |
| Upload.NoExtensionRefused | backend/server.js:97-108 | A file name without an extension is refused by the type filter whatever its mimetype. |
| Upload.UnanchoredExtensionAccepted | backend/server.js:98-101 | The type pattern is not anchored: "beach.pngx" sent as "image/png" is accepted. |
| Upload.UpperCaseExtensionAccepted | backend/server.js:99-101 | The extension is lower-cased before the test: "beach.JPG" sent as "image/jpeg" is accepted. |
| Upload.UpperCaseMimetypeRefused | backend/server.js:102 | The mimetype is tested as sent, so "image/PNG" is refused. |
| Upload.ReceiveSpec | backend/server.js:92-110 | The multer stage stores every file in order, under the name for its position, exactly when no file fails. Otherwise the request fails with the error of the first failing file. |
| Upload.ReceiveStopsAtFirstFailure | backend/server.js:92-110 | The first failing file decides the error, and nothing is stored. |
| Upload.Load | backend/server.js:511-522 | A missing or unparsable catalog reads as the empty list; a stored array reads as itself. |
| Upload.MakeRecords | backend/server.js:525-544 | Record i holds file i's stored and original names, `src` "/api/uploads/" plus the stored name, type "image", and the id and date the services give position i. It also holds the sanitised title (followed by " " and i+1 from the second file on), the sanitised location, the category or "destinations", and the sanitised description or "". No two records of a request share a title. |
| Upload.UploadWithoutFiles | backend/server.js:493-499 | A request without files is answered 400 "Please select at least one photo to upload." and the disk is unchanged. |
| Upload.UploadMissingFields | backend/server.js:501-509 | A missing or empty title or location is answered 400. The catalog is unchanged, but the files multer stored stay in the uploads directory. |
| Upload.BlankTitleAccepted | backend/server.js:503 | A title of a single space is truthy, so it passes the check and is stored as the escape of "". |
| Upload.UploadRejectedPart | backend/server.js:484-487 | When a file fails in multer, the error handler answers and the disk is as it was. |
| Upload.UploadTooLarge | backend/server.js:644-649 | A file over 5 MB that passes the type filter is answered 400 "File too large. Maximum size is 5MB.". |
| Upload.UploadWrongType | backend/server.js:104-108 | A file the type filter refuses is answered 500, not 400: the filter's error is not a multer error. |
| Upload.UploadUnexpectedFile | backend/server.js:486 | A file under a field other than `photos`, or an eleventh file, is answered 500 and the disk is unchanged. |
| Upload.UploadStorageFailure | backend/server.js:511-560 | When the catalog step throws, the answer is 500 with the storage message and the stored files stay. The catalog is unchanged if the throw came before the file was truncated, and no longer parses if `writeFileSync` (line 546) failed after truncating it. |
| Upload.TruncatedWriteLosesCatalog | backend/server.js:511-546 | After a write that fails mid-way, the catalog loads as empty, and the next successful upload stores only its own records: every earlier record is lost. |
| Upload.UploadSuccess | backend/server.js:525-552 | From an origin the `cors` stage admits, a valid upload of n files is answered 200 with "n photo(s) uploaded successfully!" and n records. The catalog becomes the old records followed by exactly these, and the uploads directory gains the n stored names. Record k holds every field of file k exactly as built at lines 526-537, including the position-suffixed title, the sanitised description and the date. |
| Upload.TitlesDistinct | backend/server.js:530-533 | The files of one request get pairwise different titles. |
| Upload.TitleNamesPosition | backend/server.js:530-533 | The first file keeps the sanitised title. File k > 0 gets it followed by a space and a number that reads back as k+1. |
| Upload.UploadKeepsCatalogBacked | backend/server.js:538-546 | Invariant: every catalog record's `src` is `/api/uploads/` plus its filename, and that file is in the uploads directory. Every request keeps this. |
| Upload.UnparsableCatalogReplaced | backend/server.js:517-521 | An unparsable catalog is overwritten by the new records alone. |
| Upload.BaseUrl | backend/server.js:580 | The base URL is `BASE_URL` when set. Otherwise it is `http://localhost:` plus `PORT`, and 5002 when `PORT` is unset. |
| Upload.Views | backend/server.js:581-584 | Each view keeps its record unchanged, in order, and adds `imageUrl`: the base URL, "/api/uploads/" and the record's filename. |
| Upload.GalleryRequest | backend/server.js:24-51 | The reader behind the `cors` stage succeeds iff the origin is admitted and the read succeeds. A refused origin gets 500 "Internal server error." before the catalog is read; an admitted one gets the handler's reply. |
| Upload.UploadRequest | backend/server.js:24-51 | The upload behind the `cors` stage. A refused origin is answered 500 "Internal server error." and the disk is unchanged: multer never runs. An admitted origin gets the route's outcome. |
| Upload.ForeignOriginUploadsNothing | backend/server.js:24-51 | An upload from "https://evil.example" is answered 500 and stores nothing, whatever it carries, unless that origin is FRONTEND_URL. |
| Upload.GetGallery | backend/server.js:565-597 | Once the origin is admitted, the reader answers 200 with one view per catalog record when reading succeeds. When the handler throws, it answers 500 "Error fetching gallery photos." with no data. |
| Upload.ReaderUrlsFollowSrc | backend/server.js:581-584 | On a backed catalog, every `imageUrl` the reader returns is the base URL followed by the record's `src`. |
| Upload.UploadThenRead | backend/server.js:565-589 | After a successful upload the reader lists the earlier records followed by the new ones, in insertion order. |
| MailForms.SanitizeOr | backend/server.js:173-177 | `sanitizeInput(x \|\| d)` sanitises the field when it is a non-empty string and the default otherwise. |
| MailForms.SanitizeIfPresent | backend/server.js:172 | `x ? sanitizeInput(x) : ""`: a missing field is "" itself, not the escape of "". |
| MailForms.CheckContact | backend/server.js:155-179 | Accepted iff name, email and message are non-empty and the email is valid. The required-field message comes first, then the email message. |
| MailForms.ContactRequest | backend/server.js:24-51 | The contact request behind the `cors` stage: 200 iff the origin is admitted, the checks pass and the mail goes out. A refused origin gets 500 "Internal server error." before any check. |
| MailForms.BookingRequest | backend/server.js:24-51 | The booking request behind the `cors` stage, with the same shape as the contact request. |
| MailForms.ForeignOriginSendsNothing | backend/server.js:24-51 | From "https://evil.example" both e-mail routes answer 500 "Internal server error." whatever the body and the transport. |
| MailForms.PostContact | backend/server.js:141-310 | Once the origin is admitted: a rejected request is answered 400 with the check's message. 200 with "Thank you for your message! …" iff the checks pass and the mail goes out. 500 with "Sorry, there was an error sending your message. …" iff the checks pass and sending fails. Success iff 200. |
| MailForms.ContactDefaults | backend/server.js:170-179 | Defaults: subject "general", travelers "1", empty dates and budget, and phone "". |
| MailForms.ContactMissingFieldFirst | backend/server.js:155-160 | An incomplete request is answered 400 whatever the email validator says. |
| MailForms.ContactInvalidEmail | backend/server.js:162-167 | A complete request with an address the validator refuses is answered 400 with "Please provide a valid email address.". |
| MailForms.ContactNamePadding | backend/server.js:171 | Padding the name with white space does not change the data sent. |
| MailForms.CheckBooking | backend/server.js:326-351 | Accepted iff package name, name, email, travel dates and travelers are non-empty and the email is valid, with the two messages in that order. |
| MailForms.PostBooking | backend/server.js:312-482 | Once the origin is admitted: a rejected booking is answered 400 with the check's message. 200 with "Booking request submitted successfully! …" iff the checks pass and the mail goes out. 500 with "Sorry, there was an error processing your booking. …" iff they pass and sending fails. |
| MailForms.BookingDefaults | backend/server.js:343-350 | A missing price becomes the escape of "", while a missing phone or special request becomes "" itself. |
| MailForms.BookingEmptyIsMissing | backend/server.js:326 | An empty travel date is treated exactly like a missing one. |
| MailForms.BookingInvalidEmail | backend/server.js:334-339 | A complete booking with an address the validator refuses is answered 400 with "Please provide a valid email address.". |
| MailForms.ContactAsWrittenFails | backend/server.js:113-121 | As written, every contact request that passes the checks is answered 500 (see Findings). |
| MailForms.BookingAsWrittenFails | backend/server.js:353 | As written, every booking that passes the checks is answered 500 (see Findings). |
| MailForms.CorrectedMailerConfirms | backend/server.js:113-121 | With a working transport, both routes answer 200 with their confirmation. |
| Gallery.FilteredItems | src/pages/Gallery.jsx:153-155 | A photo is shown iff it is in the list and the category is "all" or its own. |
| Gallery.FilteredItemsSpec | src/pages/Gallery.jsx:153-155 | "all" shows the list unchanged. Any category keeps list order and each matching photo's multiplicity, and drops the rest. |
| Gallery.EveryCategoryShowsPhotos | src/pages/Gallery.jsx:21-151 | Every filter button shows at least one fixture photo. |
| Gallery.Open | src/pages/Gallery.jsx:157-160 | Opening sets the index and opens the lightbox. |
| Gallery.Close | src/pages/Gallery.jsx:162-164 | Closing keeps the index. |
| Gallery.SelectCategory | src/pages/Gallery.jsx:208 | A category button changes only the category and does not reset the index. |
| Gallery.Shown | src/pages/Gallery.jsx:358-372 | A photo is displayed iff the index lies inside the filtered list, and it is then the filtered photo at that index. |
| Gallery.PhotoCountReadsBack | src/pages/Gallery.jsx:220-222 | The count beside the filter buttons reads back as the number of photos in the grid; with "all" it is the length of the whole list. |
| Gallery.StepsStayInRange | src/pages/Gallery.jsx:166-174 | From any index ≥ 0, next and previous land in [0, n): next at (i+1) mod n and previous at (i−1+n) mod n. |
| Gallery.StepsWrap | src/pages/Gallery.jsx:166-174 | Next from the last photo goes to the first; previous from the first goes to the last. |
| Gallery.StepsInverse | src/pages/Gallery.jsx:166-174 | Within the list, previous undoes next and next undoes previous. |
| Gallery.NextRoundTrip | src/pages/Gallery.jsx:166-168 | Pressing next n times returns to the starting photo. |
| Gallery.StaleIndexAfterCategoryChange | src/pages/Gallery.jsx:208 | After switching to a shorter list, the kept index can point past its end, and then nothing is displayed. |
| Gallery.OpenShows | src/pages/Gallery.jsx:157-160 | Opening position k displays the k-th filtered photo. |
| Tours.DurationBuckets | src/pages/Tours.jsx:212-218 | For a parsed day count ≥ 1, the short, medium and long buckets are disjoint and together cover the count. |
| Tours.UnparsedDurationOnlyAll | src/pages/Tours.jsx:212-218 | A duration `parseInt` reads as NaN passes only "all". |
| Tours.FilteredToursContents | src/pages/Tours.jsx:209-233 | The list is a permutation of the tours passing both filters. |
| Tours.FeaturedKeepsOrder | src/pages/Tours.jsx:221-233 | The "featured" order returns 0, and the stable sort keeps the filtered order; "all"/"all" shows the tours as listed. |
| Tours.PriceLowSorted | src/pages/Tours.jsx:223-224 | "price-low" lists prices in nondecreasing order. |
| Tours.PriceHighSorted | src/pages/Tours.jsx:225-226 | "price-high" lists prices in nonincreasing order. |
| Tours.RatingSorted | src/pages/Tours.jsx:227-228 | "rating" lists ratings in nonincreasing order. |
| Tours.DurationSorted | src/pages/Tours.jsx:229-230 | "duration" lists day counts in nondecreasing order when every duration parses. |
| Tours.DurationTextReads | src/pages/Tours.jsx:214 | A fixture duration "d Days / n Nights" reads as d under `parseInt`. |
| Tours.ShortFilterEmptyOnCatalog | src/pages/Tours.jsx:50-198 | No fixture tour lasts 1 to 3 days, so the short filter always shows nothing. |
| Tours.TypeButtons | src/pages/Tours.jsx:290 | Only all, adventure, cultural and luxury get a button; family and romantic cannot be chosen. |
| Tours.BookingPriceReadsBack | src/pages/Tours.jsx:236-241 | The package handed to the booking form carries the tour's title, and "$" followed by a price that reads back as the tour's price. |
| Tours.SavingsBadge | src/pages/Tours.jsx:364-368 | There is no badge iff there is no original price. An original price of 0 renders a stray "0", and only it. Any other original price shows "Save x" with x + price = original price. |
| Tours.CatalogShowsSavings | src/pages/Tours.jsx:50-198 | Every fixture tour's original price exceeds its price, so every card shows a "Save" badge with a positive amount. |
| Tours.HighlightChips | src/pages/Tours.jsx:443-457 | The first min(3, n) highlights are shown in order, and "+k more" appears iff n > 3, with k = n − 3. |
| Tours.ChipsCountAll | src/pages/Tours.jsx:443-457 | The chips shown plus the "+k" account for every highlight. |
| Blog.FilteredPosts | src/pages/Blog.jsx:154-161 | A post passes iff the lower-cased term occurs in its lower-cased title or excerpt and the category is "all" or its own. |
| Blog.FeaturedPost | src/pages/Blog.jsx:163 | The featured post is the first featured post of the whole list, or none if no post is featured. |
| Blog.RegularPosts | src/pages/Blog.jsx:164 | The grid holds exactly the filtered posts that are not featured. |
| Blog.Page | src/pages/Blog.jsx:330-334 | The count is the grid's length, and the empty state shows iff the grid is empty. |
| Blog.EmptySearchMatchesAll | src/pages/Blog.jsx:156-157 | The empty term matches every post. |
| Blog.SearchIgnoresCase | src/pages/Blog.jsx:156-157 | Lower-casing the term changes nothing. |
| Blog.FilteredPostsSpec | src/pages/Blog.jsx:154-161 | The filtered posts are a subsequence of the list and keep each matching post's multiplicity. |
| Blog.RegularPostsSpec | src/pages/Blog.jsx:164 | The grid is a subsequence of the filtered posts, holding each matching non-featured post as often as the list does. |
| Blog.UnfilteredShowsEverything | src/pages/Blog.jsx:163-164 | With no search and "all", each post shows: the featured one on top, the others in the grid. |
| Blog.FeaturedHiddenWhenFiltering | src/pages/Blog.jsx:225 | Once a term or category is set, a matching featured post shows nowhere. |
| Blog.FeaturedOnlyCategoryShowsNothing | src/pages/Blog.jsx:164 | A category whose posts are all featured shows 0 articles and the empty state. |
| Blog.GuidesCategoryShowsNothing | src/pages/Blog.jsx:31-152 | On the fixture, category "guides" with an empty search shows no featured post, 0 articles and the empty state (see Findings). |
| Blog.GuideMatchesEmptySearch | src/pages/Blog.jsx:31-152 | The fixture's first post is in "guides" and matches the empty search, so the empty "guides" page hides a matching post. |
| Blog.CorrectedShowsEachMatchOnce | src/pages/Blog.jsx:164 | Corrected grid: every matching post is shown exactly once, in the featured section or the grid, and nothing else is shown. |
| Destinations.FilteredDestinations | src/pages/Destinations.jsx:132-139 | A destination passes iff the lower-cased term occurs in its lower-cased title or location and the category is "all" or its own. |
| Destinations.CategoryName | src/pages/Destinations.jsx:221 | The name comes from the first button with that id; there is none iff no button has it. |
| Destinations.Render | src/pages/Destinations.jsx:235-261 | The cards are exactly the matching destinations, and "No destinations found" shows iff there are none. |
| Text.FoundIgnoringCaseSpec | src/pages/Destinations.jsx:133-135 | The search that the Destinations and Blog pages share finds the empty term in every text, and a term finds exactly what its lower-cased form finds. |
| Destinations.FilteredDestinationsSpec | src/pages/Destinations.jsx:132-139 | The cards keep list order and each match's multiplicity. |
| Destinations.InitialShowsAll | src/pages/Destinations.jsx:18-19 | The initial search and category show the whole list unchanged. |
| Destinations.SortIsIgnored | src/pages/Destinations.jsx:199-208 | Whatever `sortBy` holds, the page renders the same thing. |
| Destinations.SummaryCountReadsBack | src/pages/Destinations.jsx:218 | The summary starts "Showing " and the number after it reads back as the count. |
| Destinations.RenderCountsCards | src/pages/Destinations.jsx:218 | The number in the summary is the number of cards. |
| Destinations.SummaryNamesCategory | src/pages/Destinations.jsx:218-222 | "all" adds nothing after "destinations"; any other button adds " in " and that button's name. |
| Destinations.UnknownCategorySummary | src/pages/Destinations.jsx:219-222 | A category no button offers reads " in undefined". |
| Destinations.NoMatchShowsEmptyState | src/pages/Destinations.jsx:218-261 | A term matching nothing gives the empty state and a summary "Showing " whose number reads back as 0. |
| PhotoUpload.SelectFiles | src/pages/PhotoUpload.jsx:39-63 | Choosing files replaces the selection, with one preview per kept file in the same order; the form is untouched. |
| PhotoUpload.SelectKeepsAcceptable | src/pages/PhotoUpload.jsx:41-45 | The selection is exactly the image files of at most 5 MB, in order and with their multiplicities. |
| PhotoUpload.SelectWarnsIffDropped | src/pages/PhotoUpload.jsx:47-52 | The warning is set when any file was dropped. Otherwise the status is untouched and every file is kept. |
| PhotoUpload.RemoveFileSpec | src/pages/PhotoUpload.jsx:65-74 | Removing entry i deletes file i and its preview and keeps the rest in order and aligned. |
| PhotoUpload.Submit | src/pages/PhotoUpload.jsx:76-110 | Submitting leaves the form, selection and previews as they were. |
| PhotoUpload.EmptySubmitSendsNothing | src/pages/PhotoUpload.jsx:79-85 | No request is sent iff nothing is selected, and then the error status is set. |
| PhotoUpload.SubmitPayload | src/pages/PhotoUpload.jsx:91-98 | There is one request per file. Request i carries file i alone under "photo", with the form's text fields. |
| PhotoUpload.Settle | src/pages/PhotoUpload.jsx:112-139 | Uploading ends in every case. |
| PhotoUpload.SettleSpec | src/pages/PhotoUpload.jsx:112-139 | Success iff every request succeeded. Then the fields return to their defaults and the selection and previews are cleared. Otherwise everything is kept. |
| PhotoUpload.PageUploadRejected | src/pages/PhotoUpload.jsx:93 | Against the server, every request the page sends is answered 500 and the server's disk is unchanged (see Findings). |
| PhotoUpload.RejectedUploadKeepsSelection | src/pages/PhotoUpload.jsx:105-107 | A 500 settles the page with an error and keeps the selection. When it is the first failure, the page shows "Upload failed: Internal Server Error". |
| PhotoUpload.FailureMessage | src/pages/PhotoUpload.jsx:105-107 | The error text is never empty. A refused response shows "Upload failed: " followed by its status text. A network error shows its own message, or "Upload failed. Please try again." when that message is empty (lines 133-137). |
| PhotoUpload.SettleReportsFirstFailure | src/pages/PhotoUpload.jsx:112-139 | A failed batch shows the error text of the first failing response. |
| PhotoUpload.CorrectedRequestFor | src/pages/PhotoUpload.jsx:92-98 | The corrected request differs from the page's request only in the field name `photos`. |
| PhotoUpload.CorrectedRequestAccepted | src/pages/PhotoUpload.jsx:93 | Corrected: a server-acceptable image sent under `photos` with a title and location is stored, with one record appended. |
| PhotoUploadForm.SelectFiles | src/components/PhotoUploadForm.jsx:37-43 | Choosing files leaves the text fields and the uploading flag alone. |
| PhotoUploadForm.SelectAppends | src/components/PhotoUploadForm.jsx:39-43 | The old selection stays as a prefix. The image files of at most 10 MB follow it, in order and with their multiplicities. |
| PhotoUploadForm.RemoveFileSpec | src/components/PhotoUploadForm.jsx:55-58 | Removing index i drops exactly file i; an index outside the list changes nothing. |
| PhotoUploadForm.SelectThenRemoveLast | src/components/PhotoUploadForm.jsx:43-58 | Adding an acceptable file and removing it again restores the form. |
| PhotoUploadForm.RequestOf | src/components/PhotoUploadForm.jsx:71-79 | There is one part per selected file, in order. Each part is under `photos` and carries the file's name, type and size. The title, location, description and category are all sent. |
| PhotoUploadForm.Submit | src/components/PhotoUploadForm.jsx:63-68 | The form alerts iff nothing is selected. |
| PhotoUploadForm.SubmitSendsOneRequest | src/components/PhotoUploadForm.jsx:63-84 | An empty selection only alerts. Otherwise a single request carries every file under `photos`, plus the title and location. |
| PhotoUploadForm.React | src/components/PhotoUploadForm.jsx:86-101 | Uploading ends and the selection is kept whatever the reply. |
| PhotoUploadForm.ReactSpec | src/components/PhotoUploadForm.jsx:88-95 | The form closes iff the status is 2xx and the body says `success`. That is also exactly when the success alert shows. Any other reply shows the server's message. |
| PhotoUploadForm.FormUploadSucceeds | src/components/PhotoUploadForm.jsx:77-91 | Up to ten server-acceptable files with a title and location are stored in one request, answered 200 with one record each, and the form closes. |
| PhotoUploadForm.FormSizeLimitExceedsServer | src/components/PhotoUploadForm.jsx:40 | The form admits files up to 10 MB. A file over the server's 5 MB gets 400 and the size message. |
| PhotoUploadForm.EleventhFileRefused | src/components/PhotoUploadForm.jsx:77-79 | The form sets no file count limit. An eleventh file makes the server answer 500. |
| BookingModal.HandleChange | src/components/BookingModal.jsx:44-49 | Only the named field changes, to the value given. |
| BookingModal.SelectType | src/components/BookingModal.jsx:124-156 | A type button sets the type, clears the chosen package, and changes nothing else. |
| BookingModal.SelectTypeIdempotent | src/components/BookingModal.jsx:124-156 | Pressing a type button twice is pressing it once, and the next press discards a package chosen in between. |
| BookingModal.TypeButtonsSwitchLists | src/components/BookingModal.jsx:189-192 | "destination" shows the destinations; "tour" shows the tours. |
| BookingModal.OptionNamesOffer | src/components/BookingModal.jsx:193-197 | Each option value is the offer's name, " - ", and its price. |
| BookingModal.PackageName | src/components/BookingModal.jsx:63-64 | The package name is the package's name if truthy, else the chosen package if non-empty, else "Custom Package". It is never empty. |
| BookingModal.Payload | src/components/BookingModal.jsx:61-67 | The body is the form data plus the package name and price. `packageType` is present iff the form holds it, and every other key is unchanged. |
| BookingModal.ModalBookingCompleteness | src/components/BookingModal.jsx:61-67 | The payload always names a package. The server finds it complete iff name, email, travel date and travelers are non-empty. |
| BookingModal.TourBookingNamesTour | src/components/BookingModal.jsx:63-65 | Opened from a tour card, the request names that tour and its price. |
| BookingModal.InitialFormRejected | src/components/BookingModal.jsx:14-23 | The initial form sends an incomplete booking, which the server answers 400. |
| BookingModal.React | src/components/BookingModal.jsx:70-91 | The modal closes iff the reply says success. Then the data is reset; otherwise it is kept. |
| BookingModal.ModalAgreesWithServer | src/components/BookingModal.jsx:72-85 | Against the server, the modal closes iff the booking passes the checks and the mail goes out, and it then shows the confirmation. |
| BookingModal.ResetDropsPackageChoice | src/components/BookingModal.jsx:74-81 | The reset object lacks `selectedPackage` and `packageType`. Afterwards the option list falls back to the tours, unlike the initial form; every other field equals its initial value. |
| BookingModal.Render | src/components/BookingModal.jsx:94-117 | A closed modal renders nothing. An open one shows the package section iff no package was handed in. |

## Left out

- Email content: the HTML of the four messages and the nodemailer transport itself. Sending is the parameter `mailOk`.
- Rate limiting (`express-rate-limit`) and helmet's headers: library configuration, with no logic in the source.
- The headers the `cors` package sets, including on the 204 it sends for a preflight: library behaviour. `Cors.ServeUpload` records only who is refused and the preflight's status.
- Multer internals: parsing the multipart stream, and removing already written files on an error. The model states the outcome, that the disk is unchanged.
- `Upload.StorageName`: `Math.round(Math.random() * 1e9)` is modelled as `random(i) % 1000000001`. Only its range is kept, because floating point is not modelled.
- Non-string JSON values in the contact and booking bodies, where `trim` would throw. The bodies are modelled as optional strings.
- The catalog file holding valid JSON that is not an array of records: the model has only missing, unparsable and an array. The 500 that either route then gives comes from `CatalogWrite.FailsUntouched` and the `readOk` flag.
- Upload.PostUpload, and the lemmas stated on it (`UploadWithoutFiles`, `UploadMissingFields`, `UploadRejectedPart`, `UploadTooLarge`, `UploadWrongType`, `UploadUnexpectedFile`, `UploadStorageFailure`, `UploadKeepsCatalogBacked`, `UnparsableCatalogReplaced`, `UploadThenRead` and the client lemmas that call the server): these model the route once the `cors` stage has admitted the origin. A refused origin is covered by `Upload.UploadRequest`.
- Upload.GetGallery: the reader once the origin is admitted. The refused case is `Upload.GalleryRequest`.
- MailForms.PostContact and MailForms.PostBooking: the routes once the origin is admitted, and so are `ContactAsWrittenFails`, `BookingAsWrittenFails` and `CorrectedMailerConfirms`. The refused case is `ContactRequest` and `BookingRequest`.
- The working directory. Multer writes to the relative path `uploads/` (server.js:81), which resolves against the process's working directory. The directory created at lines 73-76 and served at line 634 is `backend/uploads`. The model has one uploads directory, so it assumes the server is started from `backend/`. Started elsewhere, each write fails or lands in a directory nothing serves. `UploadKeepsCatalogBacked`, `UploadThenRead` and `Cors.ServeUpload` hold under that assumption.
- Text.Lower: lower-casing is ASCII only. JavaScript's `toLowerCase` is full Unicode: for instance U+212A KELVIN SIGN becomes "k" in the browser but is kept here. The searches of Blog and Destinations inherit this.
- Concurrency:
  - the read-modify-write race between two uploads;
  - the `Promise.all` fan-out of the upload page;
  - the asynchronous FileReader previews of the upload form.
- `PhotoUpload.Settle`: reports the first failing response in request order. `Promise.all` reports the first to fail in time.
- `PhotoUpload`'s `handleInputChange` and `PhotoUploadForm`'s `handleInputChange`: generic one-field setters, the same transition as `BookingModal.HandleChange`.
- `Tours.DurationSorted`: stated only for tours whose durations all parse. With a NaN comparator result, the order `Array.prototype.sort` produces depends on the engine.
- `parseInt` is modelled for decimal digits after optional white space and sign. Hexadecimal prefixes and other radices are not modelled, and the fixtures do not use them.
- Object URLs, `alert`, `onClose` and `window.location.reload`: browser effects. The model records them as fields of the reaction instead.
- Rendering details: markup, icons, images, and dates shown with `toLocaleDateString`.
- Home, About, Contact, Policies, NotFound, Navbar, Footer, the card components and `src/config/api.js` are not part of this model.

## Findings

| source | as written | input that shows it | evidently intended | confidence | as-written member | corrected member |
|---|---|---|---|---|---|---|
| src/pages/PhotoUpload.jsx:93 | each file is appended under the field "photo" | any non-empty selection, e.g. one "beach.png" of 1 KB sent as "image/png" | the field "photos", which the server's `upload.array("photos", 10)` reads and the gallery's upload form uses | high; not executed | PhotoUpload.PageUploadRejected | PhotoUpload.CorrectedRequestAccepted |
| src/pages/Blog.jsx:164 | the grid drops every featured post, but the featured section only shows with category "all" and an empty search | category "guides" with an empty search on the fixture posts: "0 articles found" although post 1 matches | a matching featured post appears in the grid whenever the featured section is hidden | medium; not executed | Blog.GuidesCategoryShowsNothing | Blog.CorrectedShowsEachMatchOnce |
| backend/server.js:114 | the transport is created with `nodemailer.createTransporter`, which nodemailer does not export | any contact request with name, a valid email and message | `nodemailer.createTransport` | high; not executed | MailForms.ContactAsWrittenFails | MailForms.CorrectedMailerConfirms |
