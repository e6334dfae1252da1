# what-to-wear — a Dafny model

What-to-wear is a personal wardrobe manager with three parts:

- a web client (Next.js), where users register, add clothing items, browse and filter their wardrobe and categories, and see toast notifications;
- a desktop client (Tauri) that shares the same React pages and its root component;
- a Go server (gin and GORM) holding the clothing items, categories, tags, attachments, outfits, purchase, wear and maintenance records, and user accounts behind JWT authentication.

This project models the logic of those parts in Dafny and proves what each operation promises. Each source file becomes one module:

- Client hooks and pages become pure state-transition functions over their React state. An event that the page handles in sequence becomes one function step.
- Server repositories become classes that own an in-memory table: a `seq` of rows whose ids are their positions plus one. A GORM soft delete is a flag on the row. A unique index is a failure of `Create`.
- Server services and controllers become functions and methods over those tables. Each error path is a `Result`, carrying the source's own message text.
- Seed data becomes constant sequences, and the seeding loops become methods with loop invariants.
- The outside world becomes parameters or explicit inputs:
  - the clock (`time.Now`, `Date.now()`);
  - password hashing and JWT signing;
  - the outcome of a `fetch` call;
  - the results of SQL aggregation queries.

Go's `int`/`uint` arithmetic is written with truncating division (`GoInt`). Prices and other floats are exact `real`s.

`Base.dfy` holds the shared definitions:

- `Wrappers`: `Option` and `Result`;
- `Seqs`: filtering, limits, and a stable sort with its permutation and ordering lemmas;
- `Text`: ASCII case folding, trimming with the white space of JavaScript or Go, UTF-16 length, splitting, containment, and decimal printing and parsing.

## Model

| member | source | states |
|---|---|---|
| AddClothingItem.LabelShape | client/web/src/components/AddClothingItem.tsx:151-155 | an option's label is the icon and a space when there is an icon, then one dash per level below the top and a space, then the name; top-level labels have no dashes |
| AddClothingItem.RenderSize | client/web/src/components/AddClothingItem.tsx:151-165 | the category tree renders exactly one option per node |
| AddClothingItem.RenderAppend | client/web/src/components/AddClothingItem.tsx:153-165 | siblings are rendered in array order: the options of two sibling lists are the options of the first followed by those of the second |
| AddClothingItem.PreOrderPosition | client/web/src/components/AddClothingItem.tsx:153-165 | pre-order: the k-th sibling's option comes right after the options of all earlier siblings and their subtrees, and is followed by its children one level deeper |
| AddClothingItem.RenderedIds | client/web/src/components/AddClothingItem.tsx:151-165 | every top-level category has its option in the rendered list |
| AddClothingItem.DynamicAttributes | client/web/src/components/AddClothingItem.tsx:168-392 | a category-specific section exists exactly for category ids "1", "2", "4" and "5", each with three attribute selects |
| AddClothingItem.HandleInputChange | client/web/src/components/AddClothingItem.tsx:56-74 | a checkbox stores its checked flag under its name; a name starting with "attr_" stores the value under the name without the prefix in the specific attributes; any other name stores the value as a top-level field |
| AddClothingItem.SectionSelectsRouteToAttributes | client/web/src/components/AddClothingItem.tsx:62-70 | every select of a dynamic section writes its value to the specific attribute of the same name and leaves the top-level fields alone |
| AddClothingItem.ChangeTouchesOneField | client/web/src/components/AddClothingItem.tsx:56-74 | a change event changes only the entry it names; every other field and attribute keeps its value |
| AddClothingItem.Capped | client/web/src/components/AddClothingItem.tsx:80 | the list keeps the earlier images first and in order, then the new files from the first one in order, up to five in all; a list already over five is cut to its first five |
| AddClothingItem.ImageState.constructor | client/web/src/components/AddClothingItem.tsx:29-30 | the image list and the preview list start empty |
| AddClothingItem.ImageState.HandleImageUpload | client/web/src/components/AddClothingItem.tsx:76-94 | an empty selection changes nothing; otherwise the images become the old images plus the files, capped at five; previews are left to the asynchronous reader |
| AddClothingItem.ImageState.HandleDrop | client/web/src/components/AddClothingItem.tsx:113-135 | only dropped files whose type starts with "image/" are appended, capped at five; a drop without images changes nothing |
| AddClothingItem.ImageState.RemoveImage | client/web/src/components/AddClothingItem.tsx:96-101 | removing an index removes that position from both the images and the previews and keeps the order of the rest |
| AddClothingItem.DropAddsOnlyImages | client/web/src/components/AddClothingItem.tsx:117-122 | every file a drop adds is an image |
| App.RenderName | client/what-to-wear-client/src/App.tsx:40-70 | "register" renders the register page, "main" the main page, and every other name, the default branch included, the login page |
| App.RenderIsOneToOne | client/what-to-wear-client/src/App.tsx:41-61 | each page renders its own component and distinct pages render distinct components |
| App.Target | client/what-to-wear-client/src/App.tsx:20-38 | each handler sets a fixed page regardless of the current one: only a successful login leads to the main page, only the switch to register to the register page |
| App.NoRegisterToMain | client/what-to-wear-client/src/App.tsx:49-55 | from the register page every callback it receives leads to the login page |
| App.MainOnlyByLogin | client/what-to-wear-client/src/App.tsx:20-22 | the main page is reached by a callback only from the login page through a successful login |
| App.AfterMount | client/what-to-wear-client/src/App.tsx:12-18 | after mount the page is the main page when a non-empty token is stored, and unchanged otherwise |
| App.AppState.constructor | client/what-to-wear-client/src/App.tsx:10 | the app starts on the login page |
| App.AppState.Mount | client/what-to-wear-client/src/App.tsx:12-18 | the mount effect sets the page as AfterMount says |
| App.AppState.HandleLoginSuccess | client/what-to-wear-client/src/App.tsx:20-22 | a successful login shows the main page |
| App.AppState.HandleLogout | client/what-to-wear-client/src/App.tsx:24-26 | logging out shows the login page |
| App.AppState.HandleSwitchToRegister | client/what-to-wear-client/src/App.tsx:28-30 | switching to register shows the register page |
| App.AppState.HandleSwitchToLogin | client/what-to-wear-client/src/App.tsx:32-34 | switching to login shows the login page |
| App.AppState.HandleRegisterSuccess | client/what-to-wear-client/src/App.tsx:36-38 | a successful registration shows the login page |
| App.AppState.Handle | client/what-to-wear-client/src/App.tsx:40-70 | dispatching a callback of the rendered page sets the page its handler targets |
| App.MainNeedsLogin | client/what-to-wear-client/src/App.tsx:20-38 | from any page but the main page, every run of callbacks that ends on the main page contains a successful login |
| AttachmentService.ExtShape | server/services/attachment_service.go:238 | the extension filepath.Ext finds is a suffix of the path: empty, or a '.' followed by characters that are neither '.' nor '/' |
| AttachmentService.BaseName | server/services/attachment_service.go:239 | the base name followed by the name's extension is the name again |
| AttachmentService.GenerateFileName | server/services/attachment_service.go:236-242 | the generated name is base name, '_', the Unix time and the original extension, and it keeps the original name's extension |
| AttachmentService.StampKeepsExt | server/services/attachment_service.go:236-242 | putting the time stamp between the base name and the extension leaves that extension the extension of the new name |
| AttachmentService.FileNamesDiffer | server/services/attachment_service.go:236-242 | two uploads of the same name at different seconds get different stored names |
| AttachmentService.IsValidFileType | server/services/attachment_service.go:248-261 | an upload is accepted exactly when its Content-Type is one of the seven listed image and video types; any other type maps to false |
| AttachmentService.DetermineAttachmentType | server/services/attachment_service.go:263-271 | the type is "image" exactly for MIME types starting with "image/", "video" exactly for the others starting with "video/", and "file" otherwise |
| AttachmentService.AcceptedIsMedia | server/services/attachment_service.go:248-271 | every accepted upload is classified as an image or a video, never as a plain file |
| AttachmentService.AttachmentRepository.constructor | server/repositories/attachment_repository.go:34-37 | the table starts empty |
| AttachmentService.AttachmentRepository.Create | server/repositories/attachment_repository.go:39-42 | a created row gets the next id, the creation and update times and is active, and nothing else changes |
| AttachmentService.AttachmentRepository.GetByID | server/repositories/attachment_repository.go:44-52 | a lookup finds exactly the live rows, by id |
| AttachmentService.AttachmentRepository.Update | server/repositories/attachment_repository.go:54-57 | saving replaces the stored row with a new update time and leaves the other rows alone |
| AttachmentService.AttachmentRepository.Delete | server/repositories/attachment_repository.go:59-62 | deleting soft-deletes a live row and changes nothing for a missing or deleted id |
| AttachmentService.OrdersArePreorders | server/repositories/attachment_repository.go:64-85 | both list orders, sort order then creation time, and newest first, are total preorders |
| AttachmentService.ByUser | server/repositories/attachment_repository.go:73-85 | the user's list holds at most the limit when the limit is positive |
| AttachmentService.ByEntityRows | server/repositories/attachment_repository.go:64-71 | an attachment is listed for an entity exactly when it is live, active and attached to that entity, and the list is ordered by sort order then creation time |
| AttachmentService.ByUserRows | server/repositories/attachment_repository.go:73-85 | the user's list holds only live, active attachments of that user, newest first; without a limit it holds every one of them, each as often as in the table; with a positive limit it holds the limit or all of them if fewer, and any attachment left out is no newer than every listed one |
| AttachmentService.ToDTO | server/services/attachment_service.go:273-299 | the response's URL is the model's best URL, which is the stored public URL when there is one; a missing thumbnail becomes ""; the other fields are copied |
| AttachmentService.UrlIsRootedPath | server/services/attachment_service.go:68-76 | the public URL is the stored file path behind a '/' |
| AttachmentService.UploadedRowFields | server/services/attachment_service.go:59-83 | an upload stores the public URL "/uploads/<entity type>/<file name>", the path without the leading '/', the provider "local", the uploader, the original name, and the lower-cased extension of the stored name, which is the original's |
| AttachmentService.UploadAttachment | server/services/attachment_service.go:49-98 | a disallowed Content-Type is refused before any write; otherwise exactly one row is added and its response is returned |
| AttachmentService.ConvertAll | server/services/attachment_service.go:105-111 | the conversion loop gives one response per attachment, in order |
| AttachmentService.GetAttachmentsByEntity | server/services/attachment_service.go:100-112 | the entity's list is the converted repository list, with no ownership check |
| AttachmentService.GetAttachment | server/services/attachment_service.go:114-121 | any live attachment is returned, whoever asks; a missing one is an error |
| AttachmentService.Access | server/services/attachment_service.go:123-135 | the lookup succeeds exactly for a live attachment uploaded by the caller; a missing one gives the not-found error and someone else's the given refusal |
| AttachmentService.DeleteAttachment | server/services/attachment_service.go:123-144 | only the uploader can delete; the delete is a soft delete of that row alone, and a refusal changes nothing |
| AttachmentService.UpdateAttachmentOrder | server/services/attachment_service.go:146-161 | only the uploader can change the sort order, which is the only field written |
| AttachmentService.PatchedFields | server/services/attachment_service.go:172-186 | an update changes exactly the given fields, a given tag list replaces the old one whole, applying it twice equals applying it once, and the empty request changes nothing |
| AttachmentService.UpdateAttachment | server/services/attachment_service.go:163-193 | only the uploader can update; the stored row becomes the patched row with a new update time, and a refusal changes nothing |
| AttachmentService.GetAttachmentStats | server/services/attachment_service.go:196-233 | the statistics cover the user's newest 1000 attachments: their number, total size, per-type and per-entity counts and per-bucket sizes |
| AttachmentService.Summarize | server/services/attachment_service.go:217-230 | the loop counts every attachment once: the total and the three buckets add their sizes, and each map counts the attachments per key, with exactly the keys that occur |
| AttachmentService.BucketsSplitTotal | server/services/attachment_service.go:218-229 | the image, video and file buckets split the total size between them |
| AttachmentService.StatsAddUp | server/services/attachment_service.go:217-230 | the per-type counts and the per-entity counts each add up to the number of attachments, and the buckets to the total size |
| Text.SplitProperties | server/config/cors.go:49 | splitting at a one-character separator gives one more field than there are separators, no field holds a separator, and joining the fields back gives the original |
| Text.TrimProperties | server/config/cors.go:51-53 | for either runtime's white space, the trimmed string is a piece of the original with no white space at either end, and everything cut off is white space |
| Text.TrimEmptyIff | client/what-to-wear-client/src/RegisterPage.tsx:33 | a string is empty after trim() exactly when every character of it is white space, so the blank check refuses all-white-space input and nothing else |
| Text.TrimIdempotent | server/config/cors.go:51-53 | trimming an already trimmed string changes nothing |
| Text.AstralNotSpace | client/what-to-wear-client/src/RegisterPage.tsx:33 | no character beyond U+FFFF is white space, for trim() or for Go |
| Text.IdeographicSpaceIsSpace | client/what-to-wear-client/src/RegisterPage.tsx:33 | the ideographic space U+3000 is white space for trim() and for Go |
| Text.Utf16Length | client/what-to-wear-client/src/RegisterPage.tsx:37 | JavaScript's length lies between the number of characters and twice it, and equals it exactly when no character lies beyond U+FFFF |
| CategoryService.InitialNodesFacts | server/services/clothing_category_service.go:48-63 | the first loop makes one node per distinct fetched id, each carrying that category's fields, no children and no parent name |
| CategoryService.Attach | server/services/clothing_category_service.go:66-80 | one step of the second loop keeps the node map's keys |
| CategoryService.AttachEffect | server/services/clothing_category_service.go:66-80 | one step appends a copy of the category's node to the roots when it has no parent, or to its parent's children when the parent was fetched, and then writes the parent name into the map node only |
| CategoryService.GetCategoryTree | server/services/clothing_category_service.go:37-84 | the two loops return the roots the tree construction defines for the fetched categories |
| CategoryService.RootsInInputOrder | server/services/clothing_category_service.go:66-72 | the result has one entry per fetched category with a nil parent, in input order |
| CategoryService.AttachAllSplit | server/services/clothing_category_service.go:66-80 | running the loop over two lists one after the other is running it over their concatenation |
| CategoryService.RootsOnlyGrow | server/services/clothing_category_service.go:66-72 | the loop only ever appends to the roots |
| CategoryService.RootEntryChildren | server/services/clothing_category_service.go:66-80 | because nodes are copied by value, the entry of a root holds exactly the children attached before that root was reached |
| CategoryService.RootBeforeChildren | server/services/clothing_category_service.go:66-80 | a root fetched before all of its children comes back with no children |
| CategoryService.TreeDependsOnOrder | server/services/category_service.go:52-66 | the output depends on input order: a root fetched before its child comes back without it, and after it with it |
| CategoryService.TreePlacement | server/services/clothing_category_service.go:66-80 | every id in the returned tree belongs to a root or to a category whose parent was fetched |
| CategoryService.OrphansDropped | server/services/clothing_category_service.go:74-79 | with distinct ids, a category whose parent was not fetched appears nowhere in the tree |
| CategoryService.TreeHasNoParentNames | server/services/clothing_category_service.go:76-78 | the parent name is written after the node was copied into its parent, so with distinct ids no node of the returned tree carries a parent name |
| CategoryStore.Above | server/services/clothing_category_service.go:95-102 | the ancestors the path loop visits all have rows |
| CategoryStore.Chain | server/services/clothing_category_service.go:92-102 | the chain of category ids the path loop walks all have rows |
| CategoryStore.ChainShape | server/services/clothing_category_service.go:95-102 | the chain starts at a category with no parent or a missing parent, ends at the requested category, and each entry is the parent of the next |
| CategoryStore.AboveAnyBound | server/services/clothing_category_service.go:95-102 | the ancestors visited do not depend on how many lookups were allowed, once the chain ends within them |
| CategoryStore.PathIs | server/services/clothing_category_service.go:86-105 | the path built within a bound of lookups is the category's path |
| CategoryStore.PathOfTop | server/services/clothing_category_service.go:92-98 | a category without a parent, or whose parent has no row, has its own name as path |
| CategoryStore.PathOfChild | server/services/clothing_category_service.go:95-102 | otherwise the path is the parent's path, " > ", and the category's name |
| CategoryStore.TwoCycleNeverEnds | server/services/clothing_category_service.go:95-102 | two rows naming each other as parent make the path loop from either run forever |
| CategoryStore.EndsAtParent | server/services/clothing_category_service.go:95-102 | when a category's chain ends, so does its parent's |
| CategoryStore.ParentPathPrefixesPath | server/services/clothing_category_service.go:125-131 | the ParentName attached to a category below the top is its own path without the last " > name" |
| CategoryStore.Patch | server/services/clothing_category_service.go:237-258 | each provided field replaces the stored one; a parent id of 0 clears the parent, another sets it, none keeps it |
| CategoryStore.ApplyPatch | server/services/clothing_category_service.go:237-258 | the field-by-field assignments give exactly the patched row |
| CategoryStore.PathLoopEnd | server/services/category_service.go:81-90 | when the loop stops, the string built is the category's path |
| CategoryStore.CategoryRepository.constructor | server/repositories/clothing_category_repository.go:34-37 | an empty table with the given item counts and next id 1 |
| CategoryStore.CategoryRepository.ItemCount | server/repositories/clothing_category_repository.go:102-108 | the active item count of a category, 0 when none is recorded |
| CategoryStore.CategoryRepository.GetCategoryPath | server/services/clothing_category_service.go:86-105 | a missing row is an error; otherwise the path from the furthest reachable ancestor, joined by " > " |
| CategoryStore.CategoryRepository.GetCategory | server/services/clothing_category_service.go:163-192 | a missing row is an error; otherwise the row's fields, the parent's path as ParentName and the item count |
| CategoryStore.CategoryRepository.GetAllCategories | server/services/clothing_category_service.go:108-137 | one DTO per fetched row, in order, each with the parent's path as ParentName |
| CategoryStore.CategoryRepository.GetRootCategories | server/services/clothing_category_service.go:140-160 | one plain DTO per fetched row, in order |
| CategoryStore.CategoryRepository.GetCategoryStats | server/services/clothing_category_service.go:291-308 | one entry per fetched row, in order: its name and its active item count |
| CategoryStore.CategoryRepository.CreateCategory | server/services/clothing_category_service.go:195-217 | a missing parent or a taken name is refused with the table unchanged; otherwise the active new row is inserted under the next id, its path ends, and the result is its view |
| CategoryStore.CategoryRepository.UpdateCategory | server/services/clothing_category_service.go:220-265 | a missing row, the row itself as parent, a missing parent or a taken name are refused with the table unchanged; otherwise the patched row replaces the stored one and the result is its view |
| CategoryStore.CategoryRepository.DeleteCategory | server/services/clothing_category_service.go:268-288 | refused while an active child names the category, then while it has active items; otherwise only is_active is cleared on that row |
| CategoryStore.ActiveChildren | server/repositories/clothing_category_repository.go:84-91 | exactly the active rows whose parent is the category |
| CategoryStore.SoftDeleted | server/repositories/clothing_category_repository.go:68-72 | the same ids, every other row unchanged, and only is_active cleared on the deleted one |
| CategoryStore.NewRow | server/services/clothing_category_service.go:203-210 | the new row takes the id, name and parent given and is active |
| CategoryStore.InsertKeepsEnds | server/services/clothing_category_service.go:195-217 | a row inserted under a fresh id with an existing parent whose chain ends has a chain that ends |
| CategoryStore.InsertKeepsChain | server/services/clothing_category_service.go:195-217 | inserting under a fresh id leaves every other chain ending |
| CategoryStore.SameLinksSameChain | server/services/clothing_category_service.go:95-102 | the path loop depends only on the ids and parent links of the rows |
| CategoryStore.SoftDeleteKeepsPaths | server/repositories/clothing_category_repository.go:68-72 | a soft delete keeps every path as it was, including paths through the deleted row |
| CategoryStore.UpdateCanCloseCycle | server/services/clothing_category_service.go:227-235 | a table whose chains all end, in which moving the root under its own child passes every guard and leaves a chain that never ends; the checked update refuses it |
| CategoryStore.CheckedUpdateKeepsChainsEnding | server/services/clothing_category_service.go:227-235 | with a guard refusing a new parent that reaches the category, an accepted update agrees with the unchecked one and keeps every chain ending |
| CategoryStore.AvoidingChain | server/services/clothing_category_service.go:243-249 | a chain that never passes through the changed row is unaffected by the change |
| CategoryStore.ReparentEnds | server/services/clothing_category_service.go:243-249 | once the changed row's own chain ends, every chain that ended still ends |
| GoStrconv.ParseBool | server/config/cors.go:132 | the Go standard parse accepts exactly six spellings of true and six of false and refuses every other string |
| GoStrconv.ParseBoolRoundTrip | server/config/logger.go:130 | the spelling Go formats a boolean with parses back to it |
| GoStrconv.Atoi | server/config/logger.go:94 | a parse succeeds only on a non-empty string and only with a value in the 64-bit range |
| GoStrconv.AtoiRoundTrip | server/config/logger.go:94 | every 64-bit value's decimal text parses back to it |
| CorsConfig.TrimAll | server/config/cors.go:51-53 | one field trimmed of Go white space per field, in order |
| CorsConfig.TrimmedFields | server/config/cors.go:49-54 | the loop that trims each field in place leaves the trimmed fields of the comma split |
| CorsConfig.TrimmedFieldsShape | server/config/cors.go:49-54 | the list has one entry more than the value has commas, and no entry starts or ends with white space |
| CorsConfig.TrimAllEdges | server/config/cors.go:51-53 | no trimmed field starts or ends with white space |
| CorsConfig.TrimEnds | server/config/cors.go:52 | a trimmed string neither starts nor ends with white space |
| CorsConfig.ListSetting | server/config/cors.go:74-86 | a set value gives its trimmed comma-separated fields, an empty one the default list |
| CorsConfig.AllowOrigins | server/config/cors.go:45-71 | CORS_ORIGINS when set, split and trimmed; otherwise the local development origins in debug mode and the release origins otherwise |
| CorsConfig.AllowMethods | server/config/cors.go:74-86 | CORS_METHODS when set, split and trimmed; otherwise the default methods |
| CorsConfig.AllowHeaders | server/config/cors.go:89-108 | CORS_HEADERS when set, split and trimmed; otherwise the default headers |
| CorsConfig.ExposeHeaders | server/config/cors.go:111-126 | CORS_EXPOSE_HEADERS when set, split and trimmed; otherwise the default exposed headers |
| CorsConfig.AllowCredentials | server/config/cors.go:129-139 | a parsable value decides; anything else allows credentials, so only the six false spellings refuse them |
| CorsConfig.LoadCorsConfig | server/config/cors.go:22-30 | every field of the configuration is the one its getter gives for its variable |
| LoggerConfig.LogLevel | server/config/logger.go:28-48 | a known level is kept; anything else gives debug in debug mode and info otherwise; the result is always a known level |
| LoggerConfig.LogOutput | server/config/logger.go:51-67 | LOG_OUTPUT when set; otherwise both when LOG_TO_FILE is "true", else stdout in debug mode and both otherwise; never empty |
| LoggerConfig.LogFormat | server/config/logger.go:70-79 | LOG_FORMAT when set; otherwise text in debug mode and json otherwise |
| LoggerConfig.LogFilePath | server/config/logger.go:82-88 | LOG_FILE_PATH when set, otherwise logs/app.log |
| LoggerConfig.IntSetting | server/config/logger.go:91-124 | a parsable value the guard accepts is used, anything else gives the default, so an accepted default makes every result accepted |
| LoggerConfig.MaxSize | server/config/logger.go:91-100 | a positive parsed LOG_MAX_SIZE, otherwise 100; always positive |
| LoggerConfig.MaxBackups | server/config/logger.go:103-112 | a non-negative parsed LOG_MAX_BACKUPS, otherwise 3; never negative |
| LoggerConfig.MaxAge | server/config/logger.go:115-124 | a positive parsed LOG_MAX_AGE, otherwise 7; always positive |
| LoggerConfig.Compress | server/config/logger.go:127-136 | a parsable LOG_COMPRESS decides, anything else compresses, so only the six false spellings turn compression off |
| ControllerHelpers.GetUserID | server/controllers/helpers.go:12-25 | the stored user_id when it is an unsigned integer, otherwise 0 |
| ControllerHelpers.RequireUser | server/controllers/helpers.go:27-35 | a 401 reply exactly when the user id is 0; otherwise the non-zero id is handed on |
| ControllerHelpers.ParseUint32 | server/controllers/helpers.go:37-50 | succeeds exactly on a non-empty run of decimal digits whose value fits in 32 bits, with that value |
| ControllerHelpers.ParseUint32RoundTrip | server/controllers/helpers.go:37-50 | the decimal form of every 32-bit value parses back to it |
| ControllerHelpers.ParseUintParam | server/controllers/helpers.go:37-50 | an empty parameter is reported as missing and an unparsable one as invalid, both as invalid-request errors naming it; otherwise its value |
| ControllerHelpers.ParseUintParamRequired | server/controllers/helpers.go:52-60 | a parse error becomes a 400 reply carrying the error's text; otherwise the value is handed on |
| ControllerHelpers.ParamErrorText | server/controllers/helpers.go:52-60 | the 400 reply's text is the parameter's message alone, since those errors have no details |
| ControllerHelpers.ValidatePagination | server/controllers/helpers.go:92-103 | the page and page size leave the helper clamped |
| ControllerHelpers.PaginationClamp | server/controllers/helpers.go:92-103 | afterwards the page is at least 1 and the size within 1..100; values in range are kept, a non-positive size becomes 20, a larger one 100, and clamping twice is clamping once |
| ControllerHelpers.IsValidTagType | server/controllers/helpers.go:105-114 | true exactly for the seven tag types the handlers accept |
| ControllerHelpers.IsValidSortOrder | server/controllers/helpers.go:116-119 | true exactly for asc and desc |
| ControllerHelpers.IsValidClothingSortBy | server/controllers/helpers.go:121-129 | true exactly for the eight sortable clothing fields |
| ControllerHelpers.Finish | server/controllers/clothing.go:55-61 | a service error becomes a 500 reply with its text; a result becomes the success status with the data |
| ControllerHelpers.Successes | server/controllers/clothing.go:211-219 | the number of deletions the service accepted is at most the number of ids |
| ControllerHelpers.FailureTexts | server/controllers/clothing.go:211-219 | there is one error text per failed deletion |
| ControllerHelpers.FailureTextsAreFailures | server/controllers/clothing.go:211-219 | the i-th error text names the i-th failed id and its error, in request order |
| ControllerHelpers.BatchDelete | server/controllers/clothing.go:208-228 | the loop counts the accepted deletions; the failure count is the rest, and the errors are the failure texts in order |
| ClothingController.CreateClothingItem | server/controllers/clothing.go:37-62 | 401 without a user, 400 on a binding error, 400 on a non-empty invalid status; otherwise the user id and request go to the service |
| ClothingController.GetClothingItems | server/controllers/clothing.go:86-123 | pagination is clamped first, then sort field, sort direction and status are checked in that order; the service receives the clamped query |
| ClothingController.ListGuardOrder | server/controllers/clothing.go:86-123 | a bad sort direction is reported only when the sort field is acceptable, a bad status only when both sort parameters are |
| ClothingController.CreateTag | server/controllers/clothing.go:326-352 | 401 without a user, 400 on a binding error, 400 for a type outside the seven; otherwise the request goes to the service |
| ClothingController.GetTagsByType | server/controllers/clothing.go:306-324 | no user is required; the service is reached exactly for one of the seven types |
| ClothingController.BatchDeleteClothingItems | server/controllers/clothing.go:195-231 | after the user and binding checks the reply holds the counts and texts of the deletion loop |
| ClothingController.RecordWear | server/controllers/clothing.go:381-390 | a binding error is a 400 reply; otherwise 201 with no data, and nothing is stored |
| UserController.GetProfile | server/controllers/user.go:26-40 | 401 exactly when there is no user; otherwise the user id goes to the service |
| UserController.UpdateProfile | server/controllers/user.go:42-69 | 401 without a user, 400 on a binding error, 400 for a gender that is present and invalid; otherwise the request goes to the service |
| UserController.DeleteUser | server/controllers/user.go:94-122 | an unparsable id is 400, a missing user 401, another user's id 403; only a user deleting their own account reaches the service |
| UserController.DeleteUserOnlySelf | server/controllers/user.go:94-122 | the service only ever deletes the logged-in user, and an unparsable id is reported even without a user |
| UserController.ItemsPerPageClamp | server/controllers/user.go:154-160 | items per page ends in 1..100, values in range kept, and agrees with the pagination helper's page size |
| UserController.DisplaySettings.constructor | server/controllers/user.go:149 | the bound settings as given |
| UserController.DisplaySettings.Clamp | server/controllers/user.go:154-160 | items per page is replaced by its clamp; the theme is untouched |
| UserController.UpdatePreferences | server/controllers/user.go:142-172 | 401 without a user, 400 on a binding error, otherwise the clamp and a 200 reply; nothing is stored |
| UserController.GetPreferences | server/controllers/user.go:174-218 | a logged-in user gets fixed defaults: 20 items per page, private profile, a valid sort field |
| AttachmentController.UploadAttachment | server/controllers/attachment.go:25-53 | 401 without a user, 400 on a binding error, 400 for an invalid entity type; the request's user id is replaced by the logged-in user's |
| AttachmentController.UploadUsesAuthenticatedUser | server/controllers/attachment.go:25-53 | whatever user id the client sends, the service sees the logged-in user |
| AttachmentController.GetAttachmentsByEntity | server/controllers/attachment.go:55-76 | the entity type is checked before the id is parsed; the service gets both when both are valid |
| AttachmentController.DeleteAttachment | server/controllers/attachment.go:78-96 | 401 without a user, then the id's parse error; the service gets the id and the user |
| AttachmentController.BatchDeleteAttachments | server/controllers/attachment.go:142-177 | after the user and binding checks the reply holds the counts and texts of the deletion loop |
| Enums.IsValidAttachmentType | server/api/enums.go:13-20 | true exactly for image, video and file |
| Enums.ImageVideoExclusive | server/api/enums.go:22-30 | no type is both an image and a video, and both are valid attachment types |
| Enums.IsValidEntityType | server/api/enums.go:45-53 | true exactly for the six entity kinds attachments can belong to |
| Enums.IsValidClothingStatus | server/api/enums.go:68-76 | true exactly for the six clothing statuses |
| Enums.IsValidWeatherType | server/api/enums.go:91-99 | true exactly for the six weather kinds |
| Enums.IsValidGender | server/api/enums.go:111-118 | true exactly for male, female and other |
| Enums.IsValidOutfitRating | server/api/enums.go:132-134 | true exactly for the ratings 1 to 5 |
| Enums.IsValidTagType | server/api/enums.go:147-158 | true exactly for season, occasion, style and custom |
| Enums.IsValidMaintenanceType | server/api/enums.go:175-186 | true exactly for the seven maintenance kinds |
| Enums.IsValidItemRole | server/api/enums.go:204-216 | true exactly for the eight outfit item roles |
| Enums.GetSystemTagsByType | server/api/enums.go:287-293 | the listed tags for season, occasion and style, and an empty list for any other type |
| Enums.FindByName | server/api/enums.go:304-309 | a tag found is in the list and has the name asked for; none found means no tag of the list has that name |
| Enums.SystemTagLookupAgrees | server/api/enums.go:300-321 | the membership test and the lookup agree, and the tag found has the name and type asked for |
| Enums.SystemTagsFiledByType | server/api/enums.go:259-284 | every system tag is filed under its own type |
| HttpClient.NewApiError | client/web/src/lib/api/http.ts:17-26 | the error keeps message, code and status and is named ApiError |
| HttpClient.HeadersWithToken | client/web/src/lib/api/http.ts:29-37 | with a stored token and no caller headers, exactly the JSON content type and the bearer token are sent |
| HttpClient.HeadersWithoutToken | client/web/src/lib/api/http.ts:29-37 | without a token only the JSON content type is sent, never an Authorization header |
| HttpClient.CallerHeadersReplaceAll | client/web/src/lib/api/http.ts:30-37 | because the caller's options are spread last, caller headers replace the merged ones whole, bearer token included |
| HttpClient.Request | client/web/src/lib/api/http.ts:28-62 | a non-2xx answer always raises an ApiError with the response status; with an envelope its message unless falsy (else "Request failed: <status>") and its numeric code unless 0 or NaN (else the status); otherwise the text body unless empty; a 2xx envelope is returned as is, anything else is wrapped as data with code 200 and message "success" |
| HttpClient.UnparsableJsonIsWrapped | client/web/src/lib/api/http.ts:40 | an unparsable JSON body counts as an empty object and so is wrapped as data on success |
| HttpClient.PartialEnvelopeIsWrapped | client/web/src/lib/api/http.ts:52-61 | an object with only one of code and message is no envelope and is wrapped whole on success |
| HttpClient.Http | client/web/src/lib/api/http.ts:64-70 | request errors pass through; a code other than the number 200 raises an ApiError with status 200, the envelope's code unconverted, and its message unless falsy (else "Request error"); otherwise the data, even when absent |
| HttpClient.HttpSucceedsIff | client/web/src/lib/api/http.ts:64-70 | succeeds exactly on a 2xx answer that is not an envelope or whose code is the number 200; a wrapped body is returned as the data |
| HttpClient.NullMessageZeroCode | client/web/src/lib/api/http.ts:66-68 | a 2xx envelope with code 0 and a null message raises "Request error" with code 0 kept, status 200 |
| HttpClient.FailureFallsBackToStatus | client/web/src/lib/api/http.ts:43-47 | a failure envelope with an empty message and code 0 raises "Request failed: <status>" with the status as code |
| HttpClient.StringCodeRejected | client/web/src/lib/api/http.ts:66 | an envelope whose code is the string "200" is rejected, since the comparison is strict |
| ClothingItemService.CategoryOf | server/services/clothing_item_service.go:62-65 | a category is found exactly when a row with that id exists, active or not |
| ClothingItemService.ToDTO | server/services/clothing_item_service.go:296-328 | the DTO carries the item's ids and its category's name, or an empty name without a category; style and description are always empty and the status is the condition |
| ClothingItemService.ToDTOHides | server/services/clothing_item_service.go:296-328 | the item's description, notes, price, purchase date, durability and favourite flag make no difference to the DTO |
| ClothingItemService.Summary | server/services/clothing_item_service.go:330-349 | a summary has the item's id, condition and price, with no category name and no image |
| ClothingItemService.ConvertToSummaryList | server/services/clothing_item_service.go:330-349 | one summary per item, in order |
| ClothingItemService.NewItemRow | server/services/clothing_item_service.go:68-89 | the stored row of a new item is the caller's, active, not a favourite and never worn; it has a size system only with a size, and the column defaults for an empty status |
| ClothingItemService.NewItemIgnores | server/services/clothing_item_service.go:68-78 | the request's description, style, category name and favourite flag make no difference to the item created |
| ClothingItemService.CreateClothingItem | server/services/clothing_item_service.go:60-106 | without a category row nothing is written; otherwise the item is appended, its tags are linked, and the DTO shows the stored row with the category's name |
| ClothingItemService.Access | server/services/clothing_item_service.go:111-119 | succeeds exactly for an existing row of the user, with that row; a missing row and another user's row are the two refusals |
| ClothingItemService.GetClothingItem | server/services/clothing_item_service.go:109-128 | a missing item, another user's item and a missing category are the errors, in that order; a soft-deleted item of the user is still returned |
| ClothingItemService.PatchFields | server/services/clothing_item_service.go:159-176 | a given field takes the request's value, an absent one keeps the item's; size, description, favourite flag, owner and active flag stay |
| ClothingItemService.PatchIgnores | server/services/clothing_item_service.go:159-176 | the request's size, description, tags and favourite flag make no difference; the patch is idempotent and the empty request changes nothing |
| ClothingItemService.UpdateClothingItem | server/services/clothing_item_service.go:146-188 | after the owner check the patched row is saved with a new update time; the new category is not checked, so a missing one gives an empty category name |
| ClothingItemService.DeleteClothingItem | server/services/clothing_item_service.go:191-205 | after the owner check only that row changes: its active flag is cleared and its update time becomes the deletion time; a row already deleted passes again |
| ClothingItemService.BatchDeleteClothingItems | server/services/clothing_item_service.go:208-227 | every id is tried; the successes are the listed ids the user owns, counted with repetition; success plus failure is the total; those rows end inactive with the batch's update time and every other row is unchanged |
| ClothingItemService.BatchStep | server/services/clothing_item_service.go:213-220 | one step extends the handled ids and succeeds exactly when the user owned the id at the start |
| ClothingItemService.GetClothingItems | server/services/clothing_item_service.go:131-143 | the repository's page and the ceiling of the match count over the page size |
| ClothingItemService.PageCount | server/services/clothing_item_service.go:139 | the page count is the ceiling of the total over the page size |
| ClothingItemService.PlainSelects | server/services/clothing_item_service.go:275-283 | a request without filters keeps exactly the user's active items |
| ClothingItemService.GetClothingStats | server/services/clothing_item_service.go:230-258 | the total is the number of the user's active items; every breakdown is empty and both sums are zero |
| ClothingItemService.SearchClothingItems | server/services/clothing_item_service.go:261-269 | the summaries of the search's hits, at most the limit, each of one of the user's matching items; without a limit the summary of every matching item is there, and with a positive limit there are the limit or all matches if fewer |
| ClothingItemService.GetRecommendations | server/services/clothing_item_service.go:272-293 | at most ten summaries, the first of the user's twenty newest active items, whatever the occasion and weather |
| ItemRepository.JoinedTags | server/repositories/clothing_item_repository.go:111-114 | exactly the listed tags the item carries, one joined row each |
| ItemRepository.MatchesSelected | server/repositories/clothing_item_repository.go:78-114 | every row the query yields is an active item of the user that passes every filter |
| ItemRepository.MatchesWithoutTags | server/repositories/clothing_item_repository.go:78-108 | without a tag filter the rows are the selected items, each once, in table order |
| ItemRepository.IdCountAppend | server/repositories/clothing_item_repository.go:111-114 | the number of rows with one id adds up over concatenation |
| ItemRepository.IdCountRepeat | server/repositories/clothing_item_repository.go:111-114 | a repeated row contributes its repetitions to its own id only |
| ItemRepository.IdCountAbsent | server/repositories/clothing_item_repository.go:78-114 | an id of no row never comes back |
| ItemRepository.MatchesCopies | server/repositories/clothing_item_repository.go:111-114 | with distinct ids an item comes back once without a tag filter and once per listed tag it carries with one, so the join duplicates items |
| ItemRepository.OrderClause | server/repositories/clothing_item_repository.go:123-131 | the default order is created_at DESC |
| ItemRepository.OrderDirection | server/repositories/clothing_item_repository.go:124-130 | the direction is descending exactly for the exact string desc; DESC or anything else sorts ascending |
| ItemRepository.KeyLeTotal | server/repositories/clothing_item_repository.go:131 | any two items compare on a sort column |
| ItemRepository.KeyLeTransitive | server/repositories/clothing_item_repository.go:131 | the comparison on a sort column is transitive |
| ItemRepository.OrderIsTotalPreorder | server/repositories/clothing_item_repository.go:131 | each order the clause can ask for is a total preorder, so sorting by it is well defined |
| ItemRepository.Offset | server/repositories/clothing_item_repository.go:134 | for a page and size of at least 1 the offset skips page - 1 full pages |
| ItemRepository.Window | server/repositories/clothing_item_repository.go:135 | at most the limit rows, each the row at its offset, and the full limit when enough rows remain |
| ItemRepository.Query | server/repositories/clothing_item_repository.go:74-138 | the count is the number of matching rows; the page holds at most the page size of them |
| ItemRepository.WindowSorted | server/repositories/clothing_item_repository.go:135 | a window of a sorted sequence is sorted |
| ItemRepository.QueryRows | server/repositories/clothing_item_repository.go:74-138 | the page holds only the user's active items that pass the filters, in the requested order, and is the slice after page - 1 full pages of the ordered rows |
| ItemRepository.WithTags | server/repositories/clothing_item_repository.go:299-320 | the pairs already there plus one pair per listed tag for the item |
| ItemRepository.WithoutTags | server/repositories/clothing_item_repository.go:322-326 | the pairs already there except the item's pairs with a listed tag |
| ItemRepository.TagAssociation | server/repositories/clothing_item_repository.go:299-326 | adding twice is adding once, adding loses nothing, removing only removes, other items are untouched, and removing after adding is removing |
| ItemRepository.ClothingItemRepository.constructor | server/repositories/clothing_item_repository.go:54-57 | empty item and association tables |
| ItemRepository.ClothingItemRepository.Create | server/repositories/clothing_item_repository.go:59-62 | the row is appended under the next id with the column defaults for zero values |
| ItemRepository.ClothingItemRepository.GetByID | server/repositories/clothing_item_repository.go:64-72 | the row with that id, active or not, and it is found exactly when such a row exists |
| ItemRepository.ClothingItemRepository.GetByUserID | server/repositories/clothing_item_repository.go:74-138 | the count of matching rows and a page of at most the page size of the user's selected items |
| ItemRepository.ClothingItemRepository.Update | server/repositories/clothing_item_repository.go:141-144 | the whole row is written back with a new update time; nothing else changes |
| ItemRepository.Deactivated | server/repositories/clothing_item_repository.go:146-150 | the row after the update is inactive, carries the update time, keeps its id and owner and differs from the original in no other column |
| ItemRepository.ClothingItemRepository.Delete | server/repositories/clothing_item_repository.go:146-151 | on that row alone, is_active is cleared and updated_at becomes the update time; nothing else changes |
| ItemRepository.ClothingItemRepository.AddTags | server/repositories/clothing_item_repository.go:299-320 | each missing pair is inserted; the item rows are untouched |
| ItemRepository.ClothingItemRepository.RemoveTags | server/repositories/clothing_item_repository.go:322-326 | the item's pairs with a listed tag are deleted; the item rows are untouched |
| ItemRepository.ClothingItemRepository.IncrementWearCount | server/repositories/clothing_item_repository.go:338-343 | the wear count of that row grows by one and nothing else changes |
| ItemRepository.RowOf | server/repositories/clothing_item_repository.go:64-72 | the row with that id when the id is in range, active or not; none otherwise |
| ItemRepository.Search | server/repositories/clothing_item_repository.go:281-297 | at most the limit when it is positive, each an item of the table that is a hit |
| ItemRepository.SearchRows | server/repositories/clothing_item_repository.go:281-297 | the hits come newest first; without a limit every hit is listed, each as often as in the table; with a positive limit the list holds the limit or all hits if fewer, and a hit left out is no newer than every listed one |
| ItemRepository.Inserted | server/repositories/clothing_item_repository.go:59-62 | the written row has the id, both timestamps, is active, and takes the defaults active and 100 for an empty condition and a zero durability; every other field is the item's |
| MaintenanceService.Hooked | server/models/maintenance_record.go:82-91 | the save hooks set a next date later than the maintenance date, by the type's interval, whatever it held; every other field is unchanged |
| MaintenanceService.OrdersArePreorders | server/repositories/maintenance_record_repository.go:81-132 | latest-maintenance-first and soonest-next-date-first are total preorders |
| MaintenanceService.Listed | server/repositories/maintenance_record_repository.go:81-94 | at most the limit rows when it is positive |
| MaintenanceService.ListedRows | server/repositories/maintenance_record_repository.go:81-94 | the list holds only the user's rows, joined through their clothing item; without a limit it holds every one of them, each once; with a positive limit it holds the limit or all of them if fewer, and any row left out was maintained no later than every listed one |
| MaintenanceService.ListedLatestFirst | server/repositories/maintenance_record_repository.go:81-94 | the list is latest maintenance first |
| MaintenanceService.UpcomingRows | server/repositories/maintenance_record_repository.go:106-118 | a row is listed exactly when it is the user's, due within the given days and not yet reminded; the list is soonest first |
| MaintenanceService.OverdueRows | server/repositories/maintenance_record_repository.go:120-131 | a row is listed exactly when it is the user's and its next date has passed; the list is oldest first |
| MaintenanceService.MaintenanceRecordRepository.constructor | server/repositories/maintenance_record_repository.go:42-45 | an empty table |
| MaintenanceService.MaintenanceRecordRepository.Create | server/repositories/maintenance_record_repository.go:47-50 | the row is appended under the next id with the creation times and the create hook applied |
| MaintenanceService.MaintenanceRecordRepository.GetByID | server/repositories/maintenance_record_repository.go:52-60 | found exactly for a live row, with that row |
| MaintenanceService.MaintenanceRecordRepository.Update | server/repositories/maintenance_record_repository.go:71-74 | the stored row is replaced by the hooked row with the new update time |
| MaintenanceService.MaintenanceRecordRepository.Delete | server/repositories/maintenance_record_repository.go:76-79 | a live row is soft-deleted; anything else is left alone |
| MaintenanceService.MaintenanceRecordRepository.MarkReminderSent | server/repositories/maintenance_record_repository.go:218-223 | only that live row's flag and update time change; an unknown id changes nothing |
| MaintenanceService.ToDTO | server/services/maintenance_service.go:236-251 | the DTO carries the row's fields, with the notes also as the description |
| MaintenanceService.ConvertToRecordDTOs | server/services/maintenance_service.go:253-260 | one DTO per row, in order |
| MaintenanceService.WholeDays | server/services/maintenance_service.go:279 | the whole days between two times, rounded down |
| MaintenanceService.DaysOverdue | server/services/maintenance_service.go:264-279 | positive only for a next date that has passed, and then the whole days since |
| MaintenanceService.Priority | server/services/maintenance_service.go:264-299 | overdue more than 30 days is urgent, 14 high, 7 medium, else low; not yet due within 3 whole days is high, within 7 medium, else low; no next date is low; only an overdue date is urgent |
| MaintenanceService.WholeDaysMonotone | server/services/maintenance_service.go:279-288 | whole days grow as the interval grows |
| MaintenanceService.OverduePriorityMonotone | server/services/maintenance_service.go:278-286 | among overdue dates an earlier one is at least as urgent |
| MaintenanceService.UpcomingPriorityMonotone | server/services/maintenance_service.go:287-294 | among dates not yet passed a sooner one is at least as urgent |
| MaintenanceService.PriorityDropsWhenOverdue | server/services/maintenance_service.go:278-294 | across the due date the order breaks: a date due now is high, one passed by a second is low |
| MaintenanceService.ReminderOf | server/services/maintenance_service.go:262-310 | the reminder has the item's name or "Unknown Item", the next date or now, and the days overdue and priority of the next date |
| MaintenanceService.ConvertToReminderDTOs | server/services/maintenance_service.go:313-319 | one reminder per row, in order |
| MaintenanceService.StoredNextDate | server/services/maintenance_service.go:56-73 | whatever next date the request gives, the stored one is the type's interval after the maintenance date; the description makes no difference |
| MaintenanceService.CreateMaintenanceRecord | server/services/maintenance_service.go:49-78 | an invalid type is refused before anything is written; otherwise the hooked row is appended; the item is not checked |
| MaintenanceService.Access | server/services/maintenance_service.go:110-121 | a live record whose clothing item exists and is the user's; a missing record, a missing item and another owner are the three refusals |
| MaintenanceService.GetMaintenanceRecord | server/services/maintenance_service.go:81-95 | the record's DTO exactly when the access check passes, else one of its three errors |
| MaintenanceService.GetMaintenanceRecords | server/services/maintenance_service.go:98-107 | the DTOs of the user's listed rows, at most the limit |
| MaintenanceService.PatchedFields | server/services/maintenance_service.go:123-144 | each given field takes the request's value and no other changes; patching twice is patching once, and the empty request changes nothing |
| MaintenanceService.SavedIgnoresNextDate | server/services/maintenance_service.go:142-148 | what an update saves does not depend on the requested next date or description, since the update hook recomputes the date |
| MaintenanceService.UpdateMaintenanceRecord | server/services/maintenance_service.go:110-153 | after the access check an invalid new type stops the update before anything is saved; otherwise the patched, hooked row is saved |
| MaintenanceService.DeleteMaintenanceRecord | server/services/maintenance_service.go:156-175 | after the access check the row is soft-deleted |
| MaintenanceService.DeletedIsGone | server/repositories/maintenance_record_repository.go:52-60 | a deleted record is not found again, for any user |
| MaintenanceService.GetUpcomingMaintenance | server/services/maintenance_service.go:178-187 | the reminders of the rows due within the given days |
| MaintenanceService.GetOverdueMaintenance | server/services/maintenance_service.go:190-199 | the reminders of the overdue rows; each next date is before now, and low exactly when within a week |
| MaintenanceService.MarkReminderSent | server/services/maintenance_service.go:202-208 | no ownership check: any live row is marked, and an unknown id is no error |
| MaintenanceService.MarkedLeavesUpcoming | server/repositories/maintenance_record_repository.go:106-131 | a marked row no longer comes up as upcoming but stays overdue |
| AuthMiddleware.TrimPrefix | server/middleware/auth.go:22 | one leading occurrence of the prefix is removed when there is one; otherwise the string is unchanged |
| AuthMiddleware.DecisionCases | server/middleware/auth.go:14-38 | an empty header, a header without the exact prefix "Bearer " and a token that does not parse are the three rejections, with their messages; an acceptance carries the claims of the header with one prefix removed |
| AuthMiddleware.OnePrefixRemoved | server/middleware/auth.go:22-23 | only one prefix is removed, so "Bearer Bearer t" hands "Bearer t" to the parser |
| AuthMiddleware.Admit | server/middleware/auth.go:37-38 | the context gains user_id and username from the claims and keeps every other key |
| AuthMiddleware.HandlersSeeClaimsUser | server/middleware/auth.go:37 | handlers behind the middleware see the claims' user id; claims with user id 0 pass the middleware but every handler that requires a user answers 401 |
| AuthMiddleware.GinContext.constructor | server/middleware/auth.go:13 | the request's context values, not aborted, status 200, empty body |
| AuthMiddleware.GinContext.Authenticate | server/middleware/auth.go:12-41 | a rejection writes 401 with an error body naming the reason and aborts; an acceptance stores the claims and lets the chain continue |
| AttachmentModel.ImageVideoExclusive | server/models/attachment.go:76-84 | an attachment is never both an image and a video, and each only for a valid type |
| AttachmentModel.GetURL | server/models/attachment.go:86-94 | the public URL when set, else the private one, else the file path; empty only when all three are |
| AttachmentModel.IsValidAttachmentType | server/models/attachment.go:97-108 | the list scan accepts exactly image, video and file |
| AttachmentModel.IsValidEntityType | server/models/attachment.go:111-123 | the list scan accepts exactly the six entity kinds |
| AttachmentModel.ValidatorsAgreeWithEnums | server/models/attachment.go:97-123 | the model's validators and the API enumerations accept the same strings |
| CategoryModel.IsRootCategory | server/models/clothing_category.go:24-26 | a root exactly when there is no parent |
| CategoryModel.HasParent | server/models/clothing_category.go:29-31 | a parent exactly when the parent id is set |
| CategoryModel.RootIffNoParent | server/models/clothing_category.go:24-31 | a category is a root exactly when it has no parent |
| TagModel.IsValidTagType | server/models/clothing_tag.go:71-83 | the list scan accepts exactly the seven tag types, case-sensitively |
| TagModel.TagTypeValidators | server/models/clothing_tag.go:71-83 | the model's and the handlers' validators accept the same seven types, the API enumeration only four of them, so color, material and brand pass the first two and fail the third |
| TagModel.TagOrderIsTotalPreorder | server/models/clothing_tag.go:66 | sort order then name is a total preorder |
| TagModel.GetTagsByType | server/models/clothing_tag.go:55-68 | exactly the selected tags, each as often as in the table |
| TagModel.GetTagsByTypeSpec | server/models/clothing_tag.go:55-68 | exactly the active tags of the type that are system tags or, with a user, that user's own, each as often as in the table, ordered by sort order then name |
| TagModel.UserTagsStayPrivate | server/models/clothing_tag.go:60-64 | without a user only system tags come back; another user's own tags never do |
| WearRecordModel.IsValidWearIntensity | server/models/wear_record.go:67-78 | the list scan accepts exactly light, normal and heavy, case-sensitively |
| WearRecordModel.IntensityOrderIrrelevant | server/models/wear_record.go:67-78 | scanning the constants in any order gives the same answer |
| WearRecordModel.EveryIntensityValid | server/models/wear_record.go:67-78 | each listed intensity is valid, while the empty string and "Light" are not |
| MaintenanceModel.IntervalDays | server/models/maintenance_record.go:38-53 | each type's interval is one of 30, 60, 90, 180 or 365 days, and an unknown type gets 90 |
| MaintenanceModel.NextDate | server/models/maintenance_record.go:55-56 | the next date is a whole number of days, between 30 and 365, after the maintenance date, and that number is the type's interval |
| MaintenanceModel.MaintenanceRecord.constructor | server/models/maintenance_record.go:10-28 | a record with the given type, date and next date |
| MaintenanceModel.MaintenanceRecord.CalculateNextMaintenanceDate | server/models/maintenance_record.go:35-58 | the next date is set from the type and date, whatever it was before; type and date are unchanged |
| MaintenanceModel.MaintenanceRecord.BeforeCreate | server/models/maintenance_record.go:82-85 | the create hook replaces any next date with the computed one |
| MaintenanceModel.MaintenanceRecord.BeforeUpdate | server/models/maintenance_record.go:88-91 | the update hook replaces any next date with the computed one |
| MaintenanceModel.HooksIdempotent | server/models/maintenance_record.go:82-91 | running the hooks twice leaves the date the first run computed, later than the maintenance date |
| OutfitService.Numbered | server/repositories/outfit_item_repository.go:96-102 | one stored row per row, in order, numbered after the rows already there |
| OutfitService.ItemsOfOutfit | server/repositories/outfit_item_repository.go:69-75 | the rows read back are exactly the outfit's own rows |
| OutfitService.ItemsOfSorted | server/repositories/outfit_item_repository.go:69-75 | the rows read back are in layer order |
| OutfitService.ClothingIdsOf | server/services/outfit_service.go:326-333 | one clothing id per row, in order |
| OutfitService.ExtractClothingIDs | server/services/outfit_service.go:326-333 | the loop collects the clothing ids of the rows in order |
| OutfitService.OutfitStore.constructor | server/repositories/outfit_repository.go:35-38 | empty outfit and outfit-item tables |
| OutfitService.OutfitStore.Create | server/repositories/outfit_repository.go:40-43 | the outfit is appended under the next id with both timestamps |
| OutfitService.OutfitStore.CreateBatch | server/repositories/outfit_item_repository.go:96-102 | nothing for an empty list, else the rows appended in order under the next ids |
| OutfitService.OutfitStore.GetByID | server/repositories/outfit_repository.go:62-70 | found exactly for an existing id, with that row |
| OutfitService.OutfitStore.Update | server/repositories/outfit_repository.go:72-75 | the stored outfit is replaced with a new update time |
| OutfitService.ConvertToOutfitDTO | server/services/outfit_service.go:226-324 | the outfit's fields and the clothing ids of its rows |
| OutfitService.CheckClothingOwnership | server/services/outfit_service.go:62-70 | no error exactly when every id names a clothing row of the user; otherwise the error is that of the first id that fails |
| OutfitService.BuildOutfitItems | server/services/outfit_service.go:91-100 | one link row per clothing id, in request order, layer i + 1 and role main |
| OutfitService.LinkRows | server/services/outfit_service.go:91-100 | one link row per clothing id, in request order |
| OutfitService.NewRowsReadBack | server/services/outfit_service.go:91-107 | the new outfit's clothing ids are read back in request order |
| OutfitService.OnlyAddedRows | server/repositories/outfit_item_repository.go:69-75 | no older row names the new outfit, so only the added rows are read back |
| OutfitService.AddedRowsInLayerOrder | server/services/outfit_service.go:92-99 | the added rows name the outfit and are already in layer order |
| OutfitService.CreateOutfit | server/services/outfit_service.go:58-108 | if any clothing id is missing or another user's nothing is written and the error names the first such id, which is missing or another user's; otherwise the outfit and one link row per id are stored and the DTO lists the request's ids in order |
| OutfitService.NewestFirstIsTotalPreorder | server/repositories/outfit_repository.go:47-48 | date then creation time, newest first, is a total preorder |
| OutfitService.History | server/repositories/outfit_repository.go:45-60 | at most the limit when it is positive, each an outfit of the user |
| OutfitService.Skipped | server/repositories/outfit_repository.go:53-55 | the offset never skips more than the rows there are |
| OutfitService.Slice | server/repositories/outfit_repository.go:49-55 | a run of consecutive rows after the skipped ones, at most the limit when it is positive |
| OutfitService.SliceSorted | server/repositories/outfit_repository.go:49-55 | a slice of a sorted list is sorted |
| OutfitService.HistoryNewestFirst | server/repositories/outfit_repository.go:45-60 | the history is newest first |
| OutfitService.FullHistory | server/services/outfit_service.go:134-138 | without limit and offset the history counts every outfit of the user |
| OutfitService.HistoryOffset | server/services/outfit_service.go:115 | the offset is non-negative for a page of at least 1 |
| OutfitService.GetUserOutfits | server/services/outfit_service.go:111-141 | the page of the history at offset (page - 1) * pageSize, each with its clothing ids, and the count of all the user's outfits |
| OutfitService.DTOsOf | server/services/outfit_service.go:124-131 | one DTO per outfit, in order |
| OutfitService.ConvertAll | server/services/outfit_service.go:124-131 | the loop converts each outfit with its clothing ids, in order |
| OutfitService.StrategyCategories | server/services/outfit_service.go:384-463 | sunny asks for top, trousers and shoes, rainy for coat, trousers and shoes, snowy for coat, underwear and boots, anything else for top and trousers; every confidence lies in (0, 1] |
| OutfitService.FirstIn | server/services/outfit_service.go:346-355 | the first item of the list in the named category, or none exactly when no item is in it |
| OutfitService.FirstInSnoc | server/services/outfit_service.go:340-347 | appending an item keeps an earlier first item |
| OutfitService.Pick | server/services/outfit_service.go:353-369 | a category gets an entry exactly when the wardrobe has an item in it |
| OutfitService.Recommend | server/services/outfit_service.go:357-367 | the entry carries the item's id and the strategy's category, layer and confidence, with no image |
| OutfitService.GenerateRecommendations | server/services/outfit_service.go:335-373 | each entry is the pick of a strategy category, every category with a pick appears once, and there are at most as many entries as strategy categories |
| OutfitService.GroupByCategory | server/services/outfit_service.go:339-347 | items are grouped by their category's name, skipping items without a category row; each list starts with the first such item |
| OutfitService.PickFromGroups | server/services/outfit_service.go:352-370 | over the strategy's keys in any order, the entries are the picks of distinct categories, one for each category with an item |
| OutfitService.PickAdd | server/services/outfit_service.go:353-369 | a strategy category with a pick adds its entry |
| OutfitService.PickSkip | server/services/outfit_service.go:353 | a strategy category without a pick adds nothing |
| OutfitService.GroupStep | server/services/outfit_service.go:340-347 | one step of the grouping loop keeps the grouping invariant |
| OutfitService.TemperatureByWeather | server/services/outfit_service.go:465-483 | between 0 and 25 degrees, 0 exactly for snow, and 20 for an unknown weather |
| OutfitService.WeatherDescription | server/services/outfit_service.go:485-502 | the fallback description is given exactly for an unknown weather |
| OutfitService.DescriptionsDistinct | server/services/outfit_service.go:485-502 | each weather type has a description of its own |
| OutfitService.Round | server/services/outfit_service.go:516 | the nearest integer, halves away from zero |
| OutfitService.CalculateConfidence | server/services/outfit_service.go:505-517 | the loop gives the mean confidence rounded to two decimals, 0 for no items |
| OutfitService.SumConfidenceBounds | server/services/outfit_service.go:510-513 | with confidences in [0, 1] the sum lies between 0 and the number of items |
| OutfitService.ConfidenceInUnitRange | server/services/outfit_service.go:505-517 | with confidences in [0, 1] the rounded mean lies in [0, 1] |
| OutfitService.RecommendationReason | server/services/outfit_service.go:520-529 | the no-recommendation text exactly when there are no items |
| OutfitService.GetOutfitRecommendation | server/services/outfit_service.go:144-191 | an unknown weather and an empty wardrobe are refused; otherwise the recommendations for the user's first hundred newest active items, with id 0, the default occasion, the weather's temperature and description, the mean confidence and the reason |
| OutfitService.RateOutfit | server/services/outfit_service.go:194-223 | a rating outside 1..5, a missing outfit and another user's outfit are refused, in that order, with nothing changed; otherwise only that outfit's rating, notes and update time change |
| PurchaseService.LiveRowFor | server/repositories/purchase_record_repository.go:59-67 | the item's lookup returns a live row for that item, and none only when every row for the item is soft-deleted |
| PurchaseService.QueryRows | server/repositories/purchase_record_repository.go:79-112 | every list holds only rows its filter admits (live, of the user's items, in the date range or at the store), latest purchase first, at most the limit when it is positive |
| PurchaseService.ByUserRows | server/repositories/purchase_record_repository.go:79-92 | the user's list holds only live rows of the user's items, latest purchase first; without a limit every one of them, each as often as in the table; with a positive limit the limit or all of them if fewer, and any row left out is bought no later than every listed one |
| PurchaseService.ByDateRangeRows | server/repositories/purchase_record_repository.go:94-102 | a row is listed exactly when it is a live row of the user's items bought within the bounds, each as often as in the table, latest purchase first |
| PurchaseService.ByStoreRows | server/repositories/purchase_record_repository.go:104-113 | a row is listed exactly when it is a live row of the user's items whose store contains the name, each as often as in the table, latest purchase first |
| PurchaseService.PurchaseRecordRepository.constructor | server/repositories/purchase_record_repository.go:39-42 | a new table is empty and valid |
| PurchaseService.PurchaseRecordRepository.Create | server/repositories/purchase_record_repository.go:44-46 | the unique index on the item refuses a row for an item that already has one, even a deleted one; otherwise the row is appended with the next id and the creation times |
| PurchaseService.PurchaseRecordRepository.Update | server/repositories/purchase_record_repository.go:69-72 | the stored row is replaced, with the update time, and the table stays valid |
| PurchaseService.PurchaseRecordRepository.Delete | server/repositories/purchase_record_repository.go:74-77 | a live row becomes soft-deleted; any other id changes nothing |
| PurchaseService.ToDTO | server/services/purchase_record_service.go:331-350 | the DTO copies id, item, price, store, date and notes, repeats the price as the original price, and leaves the online store, payment method, order number, receipt and warranty empty |
| PurchaseService.ConvertList | server/services/purchase_record_service.go:117-134 | the conversion loop yields one DTO per record, in the records' order |
| PurchaseService.ItemAccess | server/services/purchase_record_service.go:56-63 | the create succeeds past the item check exactly when the item exists and is the user's; a missing item and a foreign item give their own errors |
| PurchaseService.StoreOf | server/services/purchase_record_service.go:78-83 | a non-empty online store replaces the store; an empty one keeps it |
| PurchaseService.CreatePurchaseRecord | server/services/purchase_record_service.go:53-91 | an item check failure, an existing live record and the unique index each refuse the create without change; otherwise exactly the new row is appended |
| PurchaseService.OneRecordPerItem | server/services/purchase_record_service.go:71-91 | after a successful create the table still has one row per item and the item's lookup returns the new row |
| PurchaseService.DeletedRecordBlocksItem | server/services/purchase_record_service.go:71-91 | once an item's record is deleted the lookup finds no record for it, but the unique index still holds its key, so a new create for that item is refused |
| PurchaseService.Access | server/services/purchase_record_service.go:94-114 | the lookup succeeds exactly for a live record whose item belongs to the user; missing record, missing item and foreign item give their own errors |
| PurchaseService.GetPurchaseRecord | server/services/purchase_record_service.go:94-114 | the DTO of the user's live record, or one of the three errors |
| PurchaseService.GetPurchaseRecords | server/services/purchase_record_service.go:117-134 | the DTOs of the user's rows in the repository's order, at most the limit when it is positive |
| PurchaseService.PatchedFields | server/services/purchase_record_service.go:155-171 | the update changes only the given fields, a non-empty online store wins over a given store, and an empty request changes nothing |
| PurchaseService.UpdatePurchaseRecord | server/services/purchase_record_service.go:137-179 | a failed access changes nothing and returns its error; otherwise the record is replaced by its patch |
| PurchaseService.DeletePurchaseRecord | server/services/purchase_record_service.go:182-206 | a failed access changes nothing and returns its error; otherwise exactly that record becomes soft-deleted |
| PurchaseService.GetPurchasesByDateRange | server/services/purchase_record_service.go:209-226 | the DTOs of the user's records purchased within the bounds, inclusive |
| PurchaseService.GetPurchasesByStore | server/services/purchase_record_service.go:229-246 | the DTOs of the user's records whose store contains the name |
| PurchaseService.GetSpendingStats | server/services/purchase_record_service.go:249-304 | the first failing query among total, average, month and category is the error with its prefix; a failing store query leaves an empty map; the cost per wear is the total over 100 when the total is positive and 0 otherwise |
| PurchaseService.SpendingBy | server/services/purchase_record_service.go:307-328 | the query's map is returned unchanged, or its error with the operation's prefix |
| Register.IndexOf | client/what-to-wear-client/src/RegisterPage.tsx:45 | the position found holds the character and no earlier position does, or it is the length when the character is absent |
| Register.EmailCheckMatchesPattern | client/what-to-wear-client/src/RegisterPage.tsx:45-48 | the direct e-mail check accepts a string exactly when it splits as a non-empty run, '@', a non-empty run, '.', a non-empty run, none containing '@' or JavaScript white space (the Unicode space separators, tab, vertical tab, form feed, line terminators and U+FEFF) |
| Register.FirstFailureIsFirst | client/what-to-wear-client/src/RegisterPage.tsx:32-62 | the reported guard fails and every guard before it passes; nothing is reported only when every guard passes |
| Register.Checks | client/what-to-wear-client/src/RegisterPage.tsx:32-62 | the form is checked by seven guards, in order; the length guards count UTF-16 code units |
| Register.ValidateForm | client/what-to-wear-client/src/RegisterPage.tsx:32-62 | the form is valid exactly when the user name and e-mail are non-blank, the user name has at least 3 UTF-16 code units, the e-mail matches the pattern, the password is non-blank with at least 6 UTF-16 code units and equals its confirmation; blank means all JavaScript white space |
| Register.ValidateIsFirstFailure | client/what-to-wear-client/src/RegisterPage.tsx:32-62 | the chain of guards in validateForm reports the same message as FirstFailure over the seven guards in order, so (by FirstFailureIsFirst) the message shown is that of a failing guard all of whose predecessors pass |
| Register.PaddedUserNamePasses | client/what-to-wear-client/src/RegisterPage.tsx:33-40 | a user name of two spaces and a letter trims to the letter yet is 3 UTF-16 code units long, so it passes both user-name guards (only the emptiness guard trims) and a blank e-mail is the first refusal |
| Register.SurrogatePairCountsTwice | client/what-to-wear-client/src/RegisterPage.tsx:37 | an emoji followed by a letter is two characters but three UTF-16 code units, so it passes the 3-character user-name guard and a blank e-mail is the first refusal |
| Register.IdeographicSpaceIsBlank | client/what-to-wear-client/src/RegisterPage.tsx:33-35 | a user name of ideographic spaces trims to nothing and is refused with the first guard's message |
| Register.DecimalPrefix | client/what-to-wear-client/src/RegisterPage.tsx:83-84 | the longest prefix of decimal digits: a prefix, all digits, followed by a non-digit or the end |
| Register.HexPrefix | client/what-to-wear-client/src/RegisterPage.tsx:83-84 | the longest prefix of hexadecimal digits: a prefix, all hex digits, followed by a non-hex-digit or the end |
| Register.DecimalPrefixOfDigits | client/what-to-wear-client/src/RegisterPage.tsx:83-84 | a string made only of digits is its own longest digit prefix |
| Register.ParseIntRoundTrip | client/what-to-wear-client/src/RegisterPage.tsx:83-84 | parseInt reads back the decimal form of every integer, negative ones included |
| Register.ParseIntStopsAtNonDigit | client/what-to-wear-client/src/RegisterPage.tsx:83-84 | parseInt of "175.5" is 175: reading stops at the first non-digit |
| Register.ParseIntNoDigit | client/what-to-wear-client/src/RegisterPage.tsx:83-84 | parseInt of a string without a leading digit is NaN |
| Register.JsonNumber | client/what-to-wear-client/src/RegisterPage.tsx:88-93 | JSON.stringify writes a number as itself and NaN as null |
| Register.OptionalInt | client/what-to-wear-client/src/RegisterPage.tsx:83-84 | an empty field is posted as null and any other as its parseInt |
| Register.Payload | client/what-to-wear-client/src/RegisterPage.tsx:76-85 | the posted data copies user name, password, e-mail, gender and birth date, falls back to the user name for an empty nickname, and parses height and weight |
| Register.NumericHeightIsPosted | client/what-to-wear-client/src/RegisterPage.tsx:83 | a height typed as the decimal form of an integer is posted as that integer |
| Register.ResponseMessage | client/what-to-wear-client/src/RegisterPage.tsx:95-107 | an ok response shows the success message, an error response shows its error field ("undefined" when absent), and a thrown error shows the network message |
| Register.RegisterPage.constructor | client/what-to-wear-client/src/RegisterPage.tsx:10-22 | the page starts with an empty form, no message and not loading |
| Register.RegisterPage.HandleInputChange | client/what-to-wear-client/src/RegisterPage.tsx:24-30 | only the named form field changes |
| Register.RegisterPage.HandleRegister | client/what-to-wear-client/src/RegisterPage.tsx:64-94 | an invalid form sends nothing and shows the first failing guard's message (UTF-16 lengths, JavaScript white space); a valid one sends its payload and shows the loading message |
| Register.RegisterPage.HandleResponse | client/what-to-wear-client/src/RegisterPage.tsx:95-111 | the message is the outcome's, loading ends, and the switch to the login page is scheduled exactly on success |
| ApiResponse.Success | server/api/response.go:11-22 | code 200 with the data; the first message when one is given and non-empty, otherwise "success" |
| ApiResponse.Error | server/api/response.go:25-30 | the given code and message and no data |
| ApiResponse.BadRequest | server/api/response.go:33-35 | an error response with code 400 and the message |
| ApiResponse.MessageOr | server/api/response.go:38-71 | a wrapper's message is its first argument, even an empty one, and the default only when none is given |
| ApiResponse.Unauthorized | server/api/response.go:38-45 | an error response with code 401, "unauthorized" by default |
| ApiResponse.Forbidden | server/api/response.go:47-54 | an error response with code 403, "forbidden" by default |
| ApiResponse.NotFound | server/api/response.go:56-63 | an error response with code 404, "not found" by default |
| ApiResponse.InternalError | server/api/response.go:65-72 | an error response with code 500, "internal server error" by default |
| ApiResponse.EmptyMessageHandling | server/api/response.go:11-72 | an explicit empty message is kept by the error wrappers but replaced by "success" in a success response |
| ApiResponse.SuccessWithPage | server/api/response.go:83-98 | a success response whose data is the page with its items, total, page, size and page count |
| ApiResponse.PageCountIsCeil | server/api/response.go:84-87 | for a positive size the page count is the ceiling of total over size, and zero for no items |
| ApiErrors.ErrorText | server/api/errors/api_error.go:16-21 | the text is "message: details" when there are details and the message alone otherwise |
| ApiErrors.NewAPIError | server/api/errors/api_error.go:24-33 | the code and message as given, and only the first details argument kept |
| ApiErrors.NewInternalError | server/api/errors/api_error.go:35-44 | an error with code 500 |
| ApiErrors.ErrInvalidRequest | server/api/errors/api_error.go:48-50 | an error with code 400 |
| ApiErrors.ErrUnauthorized | server/api/errors/api_error.go:52-54 | an error with code 401 |
| ApiErrors.ErrForbidden | server/api/errors/api_error.go:56-58 | an error with code 403 |
| ApiErrors.ErrNotFound | server/api/errors/api_error.go:60-62 | an error with code 404 |
| ApiErrors.ErrConflict | server/api/errors/api_error.go:64-66 | an error with code 409 |
| ApiErrors.ErrInternalServer | server/api/errors/api_error.go:68-70 | an error with code 500 |
| ApiErrors.ErrorTextOfNewError | server/api/errors/api_error.go:16-33 | an error built without details prints as its message, and details arguments after the first are dropped |
| DtoResponse.CreateSuccess | server/dto/response.go:26-38 | a successful result with code 200 and the data; the message is the first one when non-empty and otherwise unset |
| DtoResponse.CreateError | server/dto/response.go:41-47 | an unsuccessful result with the code, the message and no data |
| DtoResponse.TotalPages | server/dto/response.go:51-54 | the page count is never negative |
| DtoResponse.CreatePaginatedResult | server/dto/response.go:50-75 | a success result with the pagination's page, size, total and clamped page count |
| CommonErrors.NewAPIError | server/common/errors.go:32-41 | the code and message as given, and only the first details argument kept |
| CommonErrors.PlainReply | server/common/errors.go:53-67 | each of the five known error texts has its own status and message, and every other text is answered 500 "Internal server error" |
| CommonErrors.HandleError | server/common/errors.go:44-68 | an error of this package is answered with its own code, message and details; any other error by its text |
| CommonErrors.HandleErrorShape | server/common/errors.go:44-68 | every reply has an "error" field, and a foreign error escapes status 500 only through one of the five known texts |
| CommonErrors.ForeignErrorAnsweredByText | server/common/errors.go:44-68 | an API-layer error is answered by its text, so "username already exists" with code 500 is answered 409, while the same error with details is answered 500 |
| CommonErrors.SuccessResponse | server/common/errors.go:71-82 | status 200 with success and the data; the message key is present exactly when a message argument is given |
| CommonErrors.CreatedResponse | server/common/errors.go:85-96 | status 201 with success and the data; the message key is present exactly when a message argument is given |
| CommonErrors.PaginatedResponse | server/common/errors.go:99-110 | a page size of 0 panics in the division; otherwise the reply is status 200 with success, the data as given, and a pagination of total, page, page size and the rounded-up page count |
| CommonErrors.PaginatedPageCounts | server/common/errors.go:107 | with a positive page size, no rows report 0 pages and one row more than a page reports 2 |
| PageCounts.RoundUpIsCeil | server/common/errors.go:107 | (total + size - 1) / size is the ceiling of total over size for a positive size |
| PageCounts.ThreePageCountsAgree | server/api/response.go:84-87 | for a total of at least 0 and a positive size, the three page counts of the server are the same number, the ceiling of total over size |
| PageCounts.NegativeTotalDiffers | server/dto/response.go:51-54 | with a negative total the envelope's page count is negative where the DTO's is clamped to 0 |
| CategorySeeding.FindRootFirst | server/models/category_seeds.go:85 | the root found is the first row with that name and no parent, and none is found only when there is no such row |
| CategorySeeding.FindRootStable | server/models/category_seeds.go:85 | rows added later do not change which root is found first |
| CategorySeeding.RowOf | server/models/category_seeds.go:88-94 | a seeded row is active and carries the seed's name, the given id and the given parent |
| CategorySeeding.CreatedFromStable | server/models/category_seeds.go:77-135 | a row made from a seed stays so when rows are appended |
| CategorySeeding.CategoryStore.constructor | server/models/category_seeds.go:77 | the table starts with the given rows and next id |
| CategorySeeding.CategoryStore.Create | server/models/clothing_category.go:10 | the unique index on the name refuses a taken name without change; otherwise the row is appended under the next id |
| CategorySeeding.FindRootAppendNew | server/models/category_seeds.go:85-99 | a root row appended when none of that name existed is the one found from then on |
| CategorySeeding.AppendKeeps | server/models/category_seeds.go:77-135 | an append keeps every earlier row's origin, the name-to-id map and every child already found |
| CategorySeeding.RootCreated | server/models/category_seeds.go:87-99 | a root seed without a root row gets one, and the first-pass invariant advances |
| CategorySeeding.RootFound | server/models/category_seeds.go:100-102 | a root seed that already has a root row is only recorded in the map |
| CategorySeeding.SeedRoots | server/models/category_seeds.go:81-104 | the first pass only appends root rows made from root seeds; on success every root seed name maps to the first root row of that name; a failure means some seed's name is taken by a row that is not that seed in place; a table that holds every seed is left unchanged |
| CategorySeeding.ChildCreated | server/models/category_seeds.go:117-130 | a child seed without a row under its parent gets one, and the second-pass invariant advances |
| CategorySeeding.SeedChildren | server/models/category_seeds.go:106-132 | the second pass only appends child rows made from child seeds; on success every seed is in place; a failure means some seed's name is taken by a row that is not that seed in place; a table that holds every seed is left unchanged |
| CategorySeeding.SeedCategories | server/models/category_seeds.go:77-135 | rows are only appended, each new row is made from a seed, no new root follows a new child, on success every seed is in place, a failure means some seed's name is taken by a row that is not that seed in place, seeds with distinct names none of which is taken always succeed, and seeding a table that holds every seed changes nothing |
| CategorySeeding.FreshNeverBlocked | server/models/category_seeds.go:77-135 | when the seed names are distinct and none was taken, the rows the passes add put every seed in place, so no seed's name is blocked |
| CategorySeeding.CategoriesByParent | server/models/category_seeds.go:138-149 | the loop keeps exactly the entries with that parent name, in order |
| SystemCategorySeeds.SystemCategoryNamesDistinct | server/models/category_seeds.go:17-75 | no two system categories share a name |
| SystemCategorySeeds.AllChildrenOfRoots | server/models/category_seeds.go:17-75 | the 35 children each name one of the roots as parent |
| SystemCategorySeeds.RootsAreRoots | server/models/category_seeds.go:17-25 | the six roots have no parent and carry the root names |
| SystemCategorySeeds.SystemCategoriesIndex | server/models/category_seeds.go:17-75 | entry i of the list is root i for i below 6 and child i - 6 otherwise |
| SystemCategorySeeds.SystemCategoriesShape | server/models/category_seeds.go:17-75 | exactly the first six of the 41 entries are roots, and every other entry is a child of one of them |
| SystemCategorySeeds.RootSeedNames | server/models/category_seeds.go:17-75 | a name is a root seed's name exactly when it is one of the six root names |
| SystemCategorySeeds.GetSystemCategoriesByParent | server/models/category_seeds.go:138-149 | exactly the system categories with that parent name, in order |
| SystemCategorySeeds.RootsByEmptyParent | server/models/category_seeds.go:138-149 | the empty parent name selects exactly the six roots, in order |
| SystemCategorySeeds.SeedSystemCategories | server/models/category_seeds.go:77-135 | the two passes over the system categories: a failure means some system category's name is taken by a row that is not that category in place, and a table holding none of their names is always seeded |
| DatabaseCategorySeeds.SameAsSystemCategories | server/database/categories.go:18-75 | the database's copy of the table holds the same entries as the model's, in the same order |
| DatabaseCategorySeeds.CategorySeedsShape | server/database/categories.go:18-75 | six roots first, every later entry a child of one of them, no name twice |
| DatabaseCategorySeeds.GetCategoriesByParent | server/database/categories.go:139-150 | exactly the seeds with that parent name, in order |
| DatabaseCategorySeeds.SeedDatabaseCategories | server/database/categories.go:78-136 | the two passes over the category seeds: a failure means some seed's name is taken by a row that is not that seed in place, and a table holding none of their names is always seeded |
| TagSeeds.SystemTagNamesDistinct | server/models/tag_seeds.go:18-65 | no two system tags share a name, so none within a type |
| TagSeeds.GroupKinds | server/models/tag_seeds.go:18-65 | the six groups hold 4 season, 7 occasion, 8 style, 4 color, 6 material and 4 brand tags, each of its own type |
| TagSeeds.SystemTagsByKind | server/models/tag_seeds.go:99-110 | the system tags of a type are exactly that type's group, in order, and custom or unknown types have none |
| TagSeeds.SystemTagKindsValid | server/models/tag_seeds.go:18-65 | every type used is a valid tag type and none is custom |
| TagSeeds.GetSystemTagsByType | server/models/tag_seeds.go:99-110 | the loop keeps exactly the system tags of that type, in order |
| TagSeeds.TagOf | server/models/tag_seeds.go:78-87 | the created row is an active system tag with no owner and the seed's name, type and sort order |
| TagSeeds.TagStore.constructor | server/models/tag_seeds.go:68 | the table starts with the given rows and next id |
| TagSeeds.TagStore.Create | server/models/tag_seeds.go:89 | the row is appended under the next id |
| TagSeeds.SeedTags | server/models/tag_seeds.go:71-93 | rows are only appended, each new one the system tag of a seed that had no system row of its name and type, afterwards every seed is present, and a table that held them all is unchanged |
| TagSeeds.SeedSystemTags | server/models/tag_seeds.go:68-96 | the loop over the system tags, with the guarantees of the seeding loop |
| TagService.ToDTO | server/services/Clothing_tag_service.go:276-283 | the DTO carries the tag's id, name, type and description, and its colour is left empty |
| TagService.SystemTagDTO | server/services/Clothing_tag_service.go:239-244 | a system tag's DTO carries its id, name, type and description, and no colour |
| TagService.ConvertToDTOList | server/services/Clothing_tag_service.go:286-292 | one DTO per tag, in order |
| TagService.SystemTagDTOs | server/services/Clothing_tag_service.go:237-245 | the conversion loop yields one DTO per system tag, in order |
| TagService.GetSystemTagEnumsByType | server/services/Clothing_tag_service.go:229-248 | the system tags of that type converted in order, every entry of the type asked for, and an empty list for a type without system tags |
| TagService.GetAllSystemTagEnums | server/services/Clothing_tag_service.go:251-273 | exactly one key per tag type, each holding that type's system tags converted in order |
| TagService.SumRemove | server/services/Clothing_tag_service.go:204-207 | the total of the usage counts does not depend on the order the map is walked in |
| TagService.SumBounds | server/services/Clothing_tag_service.go:204-207 | each usage count is at most the total, and a zero total means every count is zero |
| TagService.UsageOf | server/services/Clothing_tag_service.go:212 | a tag's usage count is the map's entry, and 0 for a tag no item carries |
| TagService.StatsItem | server/services/Clothing_tag_service.go:211-222 | an entry carries the tag's name and count; the percentage is the count's share of the total, and 0 exactly when the total is 0 |
| TagService.GetTagStats | server/services/Clothing_tag_service.go:190-226 | the total is the sum of all usage counts, then one entry per tag, in order |
| TagService.TagStatsShares | server/services/Clothing_tag_service.go:204-222 | no tag counts more than the total, and with a zero total every entry has count 0 and no share |
| TagService.Refusal | server/services/Clothing_tag_service.go:101-109 | a system tag is always refused with the operation's own error |
| TagService.RefusalRules | server/services/Clothing_tag_service.go:101-109 | a tag may be changed exactly when it is not a system tag and is the caller's own or has no owner; another user's tag is refused as permission denied |
| TagService.NewTag | server/services/Clothing_tag_service.go:55-62 | the stored tag has the request's name, type and description, is an active non-system tag owned by the caller, and no colour, icon or sort order |
| TagService.Patch | server/services/Clothing_tag_service.go:111-117 | only the given name and description change; the colour, type, owner and system flag stay |
| TagService.TagStore.constructor | server/services/Clothing_tag_service.go:41-46 | the store starts empty with next id 1 |
| TagService.TagStore.CreateTag | server/services/Clothing_tag_service.go:48-71 | a type outside the four API types is refused before anything is stored; otherwise the new tag takes the next id |
| TagService.TagStore.GetTag | server/services/Clothing_tag_service.go:74-81 | the row with that id, active or not, or not found |
| TagService.TagStore.UpdateTag | server/services/Clothing_tag_service.go:94-125 | not found and the two refusals change nothing; otherwise the tag is replaced by its patch |
| TagService.TagStore.DeleteTag | server/services/Clothing_tag_service.go:128-147 | not found and the two refusals change nothing; otherwise only the tag's active flag is cleared |
| TagService.DeletedTagStaysReachable | server/services/Clothing_tag_service.go:128-147 | a deleted tag keeps its row, so its owner can still read, update and delete it |
| TagService.CreatedTagIsOwned | server/services/Clothing_tag_service.go:55-62 | a tag the caller creates may be updated and deleted by the caller and by nobody else |
| TagService.ServiceRefusesHandlerTypes | server/services/Clothing_tag_service.go:50-52 | "color", "material" and "brand" pass the handler's and the model's tag-type checks, but the service refuses them |
| ThemeHook.Parse | client/web/src/hooks/useTheme.ts:11-14 | a stored string is read as a theme exactly when it is 'light', 'dark' or 'system', and reads back as itself |
| ThemeHook.InitialTheme | client/web/src/hooks/useTheme.ts:8-22 | the stored theme when valid; otherwise dark when the system prefers dark and light when not; light outside a browser |
| ThemeHook.StoredThemeRestored | client/web/src/hooks/useTheme.ts:8-22 | a theme that was stored is the theme the hook starts with next time, whatever the system prefers |
| ThemeHook.Toggle | client/web/src/hooks/useTheme.ts:48-63 | light becomes dark, dark becomes system, and system becomes light |
| ThemeHook.ToggleCycle | client/web/src/hooks/useTheme.ts:48-63 | one or two toggles always change the theme, and three bring it back |
| ThemeHook.IsDarkCases | client/web/src/hooks/useTheme.ts:76-81 | dark is dark and light is light; system follows the system preference; outside a browser only dark is dark |
| ThemeHook.ThemeState.constructor | client/web/src/hooks/useTheme.ts:8-22 | the hook starts with the initial theme read from storage, which it does not change |
| ThemeHook.ThemeState.ToggleTheme | client/web/src/hooks/useTheme.ts:48-69 | the theme advances one step and is stored under 'theme' |
| ThemeHook.ThemeState.SetThemeMode | client/web/src/hooks/useTheme.ts:71-74 | the theme is set and stored under 'theme' |
| Toasts.NewToast | client/web/src/components/ToastProvider.tsx:54-56 | the toast's id is the clock reading in decimal, with the message, "info" as the default type and 3000 as the default duration |
| Toasts.Removed | client/web/src/components/ToastProvider.tsx:62 | the queue keeps exactly the toasts with another id |
| Toasts.RemovedKeepsOrder | client/web/src/components/ToastProvider.tsx:62 | removal keeps the remaining toasts in their order: it works piece by piece over the queue, dropping a toast exactly when it has the id |
| Toasts.ShowThenRemove | client/web/src/components/ToastProvider.tsx:54-63 | removing a toast after showing it leaves the older toasts without that id |
| Toasts.SameMillisecondRemovedTogether | client/web/src/components/ToastProvider.tsx:55-62 | two toasts shown in the same millisecond share their id, so the timer of either removes both |
| Toasts.DistinctTimesDistinctIds | client/web/src/components/ToastProvider.tsx:55 | toasts shown at different times have different ids |
| Toasts.UseToast | client/web/src/components/ToastProvider.tsx:22-28 | the context inside a provider, and the error "useToast must be used within a ToastProvider" outside one |
| Toasts.ToastProvider.constructor | client/web/src/components/ToastProvider.tsx:31-32 | the queue starts empty |
| Toasts.ToastProvider.ShowToast | client/web/src/components/ToastProvider.tsx:54-64 | exactly one new toast is appended, and its id is the one its timer removes |
| Toasts.ToastProvider.RemoveToast | client/web/src/components/ToastProvider.tsx:61-63 | the timer and the close button remove every toast with that id and keep the rest in order |
| Dates.Fixed | server/services/user_service.go:81 | the fixed-width text of a number has exactly that many characters, all digits |
| Dates.FixedRoundTrip | server/services/user_service.go:81 | a number below 10 to the width reads back from its fixed-width digits |
| Dates.FixedOfDigits | server/services/user_service.go:81 | digits read as a number and printed at the same width give the same digits back |
| Dates.YearText | server/services/user_service.go:81 | the year is printed with at least four characters |
| Dates.DateText | server/services/user_service.go:81 | a date printed with the layout "2006-01-02" has at least ten characters |
| Dates.TimeString | server/services/user_service.go:81 | the String() form of a time is longer than its date part |
| Dates.ParseDate | server/services/user_service.go:81 | a text that parses with the layout "2006-01-02" is ten characters long and gives a valid date |
| Dates.ParseDateIff | server/services/user_service.go:81 | a text parses to a date exactly when it is that date printed with the layout, so reading is the inverse of printing |
| Dates.BirthDateAsWritten | server/services/user_service.go:80-84 | the request's time printed by String() and parsed with the date layout never yields a date |
| Dates.BirthDateOf | server/services/user_service.go:80-84 | the intended reading yields the request's own calendar date |
| UserStore.GetByID | server/repositories/user_repository.go:93-102 | a user is found exactly when the id names a live row, and it is that row |
| UserStore.GetByUsername | server/repositories/user_repository.go:69-78 | the user found is a live row with the name, and none is found only when every row with the name is deleted |
| UserStore.GetByUsernameFinds | server/repositories/user_repository.go:69-78 | with unique names, the row found for a live user's name is that user |
| UserStore.UserRepository.constructor | server/repositories/user_repository.go:45-48 | a new table is empty and valid |
| UserStore.UserRepository.Create | server/repositories/user_repository.go:50-66 | the unique indexes refuse a username or email that any row holds, even a deleted one; otherwise the user is appended with the next id |
| UserStore.UserRepository.Update | server/repositories/user_repository.go:105-110 | the unique indexes refuse a username or email another row holds; otherwise exactly that row is replaced |
| UserStore.UserRepository.Delete | server/repositories/user_repository.go:113-118 | a live user becomes soft-deleted; a missing or deleted id changes nothing |
| UserStore.DeletedKeysStayTaken | server/repositories/user_repository.go:113-136 | a deleted user's name and email are free for the existence checks but still held by the indexes, so a new account with either is refused |
| UserService.Profile | server/services/user_service.go:46-47 | the profile handed out is the user with the password cleared and nothing else changed |
| UserService.GetProfile | server/services/user_service.go:40-49 | the profile of a live user, without the password, and "user not found" for any other id |
| UserService.PatchedFields | server/services/user_service.go:72-92 | only the given nickname, gender, height and weight change; the birth date never does, because the requested time never parses; an empty request changes nothing |
| UserService.UpdateProfile | server/services/user_service.go:52-102 | a missing user, a new email that a live user holds and a save refused by the indexes each change nothing; otherwise the user is saved with the new email and the patched fields, and the result has no password |
| UserService.ProfileSaveClash | server/services/user_service.go:59-97 | past the service's own email check, the save is refused only for an email that a deleted user still holds |
| UserService.ChangePassword | server/services/user_service.go:105-130 | a missing user, a wrong old password and a failed hash each change nothing; otherwise only the stored password becomes the new hash |
| UserService.DeleteUser | server/services/user_service.go:133-146 | only a live user can be deleted, and exactly that row becomes soft-deleted |
| AuthService.NewUser | server/services/auth_service.go:72-88 | the stored row has the hash as its password, the request's name and email, and the name as nickname when none is given |
| AuthService.Register | server/services/auth_service.go:41-96 | the username is checked before the email, both against live users only; a failed hash and a key a deleted user still holds are refused without change; otherwise exactly the new user is appended |
| AuthService.Login | server/services/auth_service.go:99-139 | the token is returned exactly when a live user has the name, the password checks and the token is made; an unknown user and a wrong password give the same error |
| AuthService.LoginFailureUniform | server/services/auth_service.go:105-121 | an unknown user and a wrong password get the same answer, which the handler turns into 401 |
| AuthService.RegisterConflictsAnswered | server/services/auth_service.go:47-56 | the two registration conflicts, although built with code 500, are answered 409 |
| AuthService.RegisteredUserCanLogIn | server/services/auth_service.go:41-139 | a registered user can log in with the password whose hash was stored |
| AuthService.ChangedPasswordLogsIn | server/services/user_service.go:105-130 | after a password change the user logs in with the new password |
| AuthService.ValidateUser | server/services/auth_service.go:142-151 | a live user without the password, and "user not found" for any other id |
| AuthService.RefreshToken | server/services/auth_service.go:154-167 | a new token exactly for a live user when token generation succeeds; otherwise the matching error |
| Wardrobe.FilterItems | client/web/src/hooks/useWardrobe.ts:172-179 | the shown items are items that match the filters, and every matching item is shown |
| Wardrobe.MatchesIff | client/web/src/hooks/useWardrobe.ts:172-178 | an item matches exactly when its category and season match or are the "all" values and the search term is a case-insensitive substring of its name or of one of its tags |
| Wardrobe.InitialFiltersKeepEverything | client/web/src/hooks/useWardrobe.ts:95-101 | with the initial filters every item is shown, in order |
| Wardrobe.DirectedAntisymmetric | client/web/src/hooks/useWardrobe.ts:182-201 | swapping two items negates the comparison, in either direction |
| Wardrobe.BeforeTransitive | client/web/src/hooks/useWardrobe.ts:182-201 | the order the comparator gives is transitive |
| Wardrobe.BeforeIsTotalPreorder | client/web/src/hooks/useWardrobe.ts:182-201 | every sort key in either direction is a total preorder on items |
| Wardrobe.SortItems | client/web/src/hooks/useWardrobe.ts:182 | the sorted list is a permutation of its input |
| Wardrobe.SortItemsSorted | client/web/src/hooks/useWardrobe.ts:182-201 | the sorted list is ordered by the directed comparator |
| Wardrobe.DisplayedIsSortedPermutation | client/web/src/hooks/useWardrobe.ts:172-201 | the displayed items are a permutation of the filtered items; by wear count ascending the counts never decrease, descending they never increase |
| Wardrobe.DescReversesAsc | client/web/src/hooks/useWardrobe.ts:200 | 'desc' reverses every comparison of 'asc' |
| Wardrobe.UpdateMatching | client/web/src/hooks/useWardrobe.ts:146-155 | the list keeps its length; items with the id take the update's properties and all others are unchanged |
| Wardrobe.EmptyUpdateIsIdentity | client/web/src/hooks/useWardrobe.ts:146-155 | an update with no properties changes nothing |
| Wardrobe.DeleteMatching | client/web/src/hooks/useWardrobe.ts:161-167 | no item with the id is left, every other item stays, and nothing new appears |
| Wardrobe.DeleteKeepsOrder | client/web/src/hooks/useWardrobe.ts:161-167 | deletion keeps the remaining items in their order: it works piece by piece over the list, dropping an item exactly when it has the id |
| Wardrobe.DeleteKeepsOthers | client/web/src/hooks/useWardrobe.ts:161-167 | every other item is kept as often as it occurred |
| Wardrobe.IsFilteredIgnoresSort | client/web/src/hooks/useWardrobe.ts:244-246 | the list counts as filtered exactly when category, season or search term differ from their initial values, whatever the sort |
| Wardrobe.WardrobeState.constructor | client/web/src/hooks/useWardrobe.ts:93-101 | the hook starts with no items and the initial filters |
| Wardrobe.WardrobeState.FetchItems | client/web/src/hooks/useWardrobe.ts:104-116 | the items become the fixed sample list and the filters stay |
| Wardrobe.WardrobeState.AddItem | client/web/src/hooks/useWardrobe.ts:128-144 | one new item, with id the clock reading in decimal and no wears, is appended; the filters stay |
| Wardrobe.WardrobeState.UpdateItem | client/web/src/hooks/useWardrobe.ts:146-159 | the items become the updated list and the filters stay |
| Wardrobe.WardrobeState.DeleteItem | client/web/src/hooks/useWardrobe.ts:161-170 | the items lose every item with the id and the filters stay |
| Wardrobe.WardrobeState.UpdateFilters | client/web/src/hooks/useWardrobe.ts:204-206 | the given filter fields replace the old ones and the items stay |
| Wardrobe.ApplyFiltersSpread | client/web/src/hooks/useWardrobe.ts:204-206 | each given filter field replaces the old one and every other field stays; an empty update changes nothing, and applying an update twice is applying it once |
| Wardrobe.WardrobeState.ResetFilters | client/web/src/hooks/useWardrobe.ts:209-217 | the filters return to their initial values, which count as not filtered, and the items stay |
| AddClothingPage.Labels | client/web/src/app/main/wardrobe/add/page.tsx:80 | one label per suggested tag, in order |
| AddClothingPage.AddPageState.constructor | client/web/src/app/main/wardrobe/add/page.tsx:40-57 | the page starts with the initial form, the sample images, the suggested tags and no applied tags |
| AddClothingPage.AddPageState.HandleInputChange | client/web/src/app/main/wardrobe/add/page.tsx:59-64 | only the named form field changes |
| AddClothingPage.AddPageState.HandleRemoveImage | client/web/src/app/main/wardrobe/add/page.tsx:66-69 | every image with the id is removed and the rest keep their order; nothing else changes |
| AddClothingPage.AddPageState.HandleRemoveTag | client/web/src/app/main/wardrobe/add/page.tsx:75-77 | every suggested tag with the id is removed and the rest keep their order; nothing else changes |
| AddClothingPage.AddPageState.HandleApplyAllTags | client/web/src/app/main/wardrobe/add/page.tsx:79-84 | the suggested tags' labels are appended to the applied tags, the suggestions are emptied and their card is hidden |
| WardrobeList.FilteredItems | client/web/src/app/main/wardrobe/list/page.tsx:50-54 | the listed items are sample items matching the search, and every matching sample item is listed |
| WardrobeList.EmptySearchListsAll | client/web/src/app/main/wardrobe/list/page.tsx:50-54 | an empty search lists all four items, in order |
| WardrobeList.DisplayedCount | client/web/src/app/main/wardrobe/list/page.tsx:154 | the count shown is the number of sample items that match the search |
| WardrobeList.ListPageState.constructor | client/web/src/app/main/wardrobe/list/page.tsx:47-48 | the page starts with an empty search and sorting "recent" |
| WardrobeList.ListPageState.SetSortBy | client/web/src/app/main/wardrobe/list/page.tsx:81 | the sort choice is stored, and the listed items do not change |
| WardrobeList.ListPageState.SetSearchTerm | client/web/src/app/main/wardrobe/list/page.tsx:75 | the search is stored and the sort choice stays |
| WardrobeCategories.Accepted | client/web/src/app/main/wardrobe/categories/page.tsx:14-19 | a value is added exactly when its trimmed form is not empty, and it is added trimmed |
| WardrobeCategories.DisabledIffNothingAdded | client/web/src/app/main/wardrobe/categories/page.tsx:47 | the add button is disabled exactly when a click would add nothing, that is when the value is all white space |
| WardrobeCategories.AcceptedIsTrimmed | client/web/src/app/main/wardrobe/categories/page.tsx:14-19 | an added value has no white space at either end |
| WardrobeCategories.ChipInput.constructor | client/web/src/app/main/wardrobe/categories/page.tsx:12 | the input starts empty |
| WardrobeCategories.ChipInput.HandleAdd | client/web/src/app/main/wardrobe/categories/page.tsx:14-19 | what is added is the accepted value, and the input is cleared exactly when something is added |
| WardrobeCategories.ChipInput.HandleKeyPress | client/web/src/app/main/wardrobe/categories/page.tsx:21-25 | Enter adds as the button does, and any other key does nothing |
| WardrobeCategories.CategoriesState.constructor | client/web/src/app/main/wardrobe/categories/page.tsx:56-67 | the page starts with the initial categories and tag groups |
| WardrobeCategories.CategoriesState.AddCategory | client/web/src/app/main/wardrobe/categories/page.tsx:70-72 | a new category with count 0 is appended and the tags stay |
| WardrobeCategories.CategoriesState.AddTag | client/web/src/app/main/wardrobe/categories/page.tsx:74-79 | the value is appended to its group only; other groups and the categories stay |
| WearService.LatestFirstIsPreorder | server/repositories/wear_record_repository.go:82-95 | ordering by wear date, latest first, is a total preorder |
| WearService.SortedQuery | server/repositories/wear_record_repository.go:58-115 | a query result holds only rows its filter admits, latest first; without a limit it holds every admitted row once |
| WearService.ByUserRows | server/repositories/wear_record_repository.go:82-95 | the user's list holds only the user's live rows, latest wear first, and all of them without a limit; with a positive limit it holds the limit or all of them if fewer, and any row left out was worn no later than every listed one, so the ten-row list of the statistics is the user's latest ten wears |
| WearService.ByUserEmptyIff | server/repositories/wear_record_repository.go:82-95 | the user's list is empty exactly when the user has no live row |
| WearService.ByUserHeadIsLatest | server/repositories/wear_record_repository.go:82-95 | the first row of the user's list has the user's latest wear date |
| WearService.ByItemRows | server/repositories/wear_record_repository.go:57-69 | the item's list holds only that item's live rows, latest wear first; without a limit every one of them, each as often as in the table; with a positive limit the limit or all of them if fewer, and any row left out is worn no later than every listed one |
| WearService.ByDateRangeRows | server/repositories/wear_record_repository.go:97-105 | a row is listed exactly when it is a live row of the user's items worn within the bounds, each as often as in the table, latest wear first |
| WearService.ByOccasionRows | server/repositories/wear_record_repository.go:107-115 | a row is listed exactly when it is a live row of the user's items with that occasion, each as often as in the table, latest wear first |
| WearService.Tally | server/repositories/wear_record_repository.go:178-203 | the grouping has a key exactly for each value that occurs |
| WearService.TallyCounts | server/repositories/wear_record_repository.go:178-203 | each value is counted as often as it occurs |
| WearService.Occasions | server/repositories/wear_record_repository.go:178-203 | the occasions of the rows, one per row, in order |
| WearService.SumOverRemove | server/services/wear_record_service.go:230-233 | the sum of the counts does not depend on the order the map is walked in |
| WearService.TallySum | server/repositories/wear_record_repository.go:178-203 | the counts of a grouping add up to the number of values grouped |
| WearService.FrequencySum | server/services/wear_record_service.go:262-266 | the frequencies add up to the number of the user's rows with an occasion |
| WearService.FrequencyKeys | server/services/wear_record_service.go:262-266 | the frequency has a key exactly for each occasion of the user's rows, and counts that occasion's rows |
| WearService.WearRecordRepository.constructor | server/repositories/wear_record_repository.go:38-41 | a new table is empty and valid |
| WearService.WearRecordRepository.Create | server/repositories/wear_record_repository.go:43-46 | the row is appended with the next id and the creation times |
| WearService.WearRecordRepository.Update | server/repositories/wear_record_repository.go:72-75 | the stored row is replaced, with the update time |
| WearService.WearRecordRepository.Delete | server/repositories/wear_record_repository.go:77-80 | a live row becomes soft-deleted; any other id changes nothing |
| WearService.ToDTO | server/services/wear_record_service.go:282-292 | the DTO carries the id, item, wear date, notes and times of the row |
| WearService.ConvertToDTOList | server/services/wear_record_service.go:294-300 | one DTO per record, at the same index |
| WearService.ItemAccess | server/services/wear_record_service.go:52-60 | the item check passes exactly for an existing item of the user, even a deactivated one; a missing item and a foreign item give their own errors |
| WearService.Access | server/services/wear_record_service.go:76-95 | the lookup passes exactly for a live record whose item exists and belongs to the user, with the record-missing error first |
| WearService.CreateWearRecord | server/services/wear_record_service.go:48-74 | a failed item check changes nothing; otherwise one record with the request's wear date and notes is appended |
| WearService.CreatedRecordNotCounted | server/services/wear_record_service.go:61-65 | a record created through the service has no occasion, so the frequency and the statistics' total do not change |
| WearService.GetWearRecord | server/services/wear_record_service.go:76-95 | the DTO of the user's live record, or one of the three errors |
| WearService.GetWearRecords | server/services/wear_record_service.go:97-107 | the DTOs of the user's list, in order |
| WearService.PatchedFields | server/services/wear_record_service.go:127-132 | the update changes exactly the given fields, applying it twice is applying it once, and the empty request changes nothing |
| WearService.UpdateWearRecord | server/services/wear_record_service.go:109-141 | a failed access changes nothing; otherwise only the given fields of that record change |
| WearService.DeleteWearRecord | server/services/wear_record_service.go:143-167 | a failed access changes nothing; otherwise exactly that record becomes soft-deleted |
| WearService.DeletedIsGone | server/services/wear_record_service.go:143-167 | a deleted record is refused to every later lookup, whoever asks |
| WearService.GetWearRecordsByItem | server/services/wear_record_service.go:169-188 | a failed item check is returned as the error; otherwise the DTOs of the item's rows, latest first |
| WearService.GetWearRecordsByDateRange | server/services/wear_record_service.go:190-200 | the DTOs of the user's rows worn within the bounds |
| WearService.GetWearRecordsByOccasion | server/services/wear_record_service.go:202-212 | the DTOs of the user's rows with that occasion |
| WearService.SumFrequency | server/services/wear_record_service.go:230-233 | the loop adds up every frequency value |
| WearService.AveragePerItem | server/services/wear_record_service.go:235-239 | 0 when nothing was counted, otherwise the number that times the count gives the total |
| WearService.GetWearStats | server/services/wear_record_service.go:214-260 | the total is the number of the user's rows with an occasion, the occasions are the frequency, the recent list is the latest ten, the average per item is the total divided by the recent list's length (0 for none) and the last wear date is the first recent one's |
| WearService.LastWearDateIsLatest | server/services/wear_record_service.go:240-245 | the last wear date is missing exactly when the user has no live record, and is otherwise the user's latest wear date |
| WearService.GetComfortAnalysis | server/services/wear_record_service.go:268-280 | the analysis is all zeros and empty maps, whatever the records |

## Left out

- Rendering: JSX/DOM output, CSS, icons and animation are not modelled. Only the state and the values the pages compute are modelled.
- I/O:
  - the HTTP transport of `fetch` and gin, the database connection, and file storage on disk are outside the model;
  - a request's outcome and a query's rows are parameters;
  - database failures other than unique-index violations are not modelled.
- Time: `time.Now`, `Date.now()` and `setTimeout` are explicit parameters and events. Fractional seconds in Go's `Time.String` are not modelled.
- Cryptography: bcrypt hashing and JWT signing and verification are parameters (a hash function and a token oracle). Token expiry is compared to the given clock.
- Floating point: prices, discounts, the wear average `averagePerItem` and comfort scores are exact reals. Rounding and `decimal(10,2)` storage are not modelled.
- SQL aggregations are the given results of their queries:
  - maintenance `GetMaintenanceCostByType`;
  - the purchase statistics queries;
  - tag usage statistics.
- Wear `GetWearFrequency` is modelled on the rows (`WearService.Tally`, `TallyCounts`, `FrequencyKeys`): its SQL `GROUP BY occasion` becomes a count per occasion over the user's rows that have an occasion.
- SQL `LIKE` is modelled as substring containment. Wildcard characters in the search term and database collation are not modelled.
- Text.Lower: only ASCII letters are folded; `toLowerCase`/`strings.ToLower` on other scripts is not modelled.
- Text.StrCmp: `localeCompare` is modelled as code-point order. Locale collation rules are not modelled.
- Wardrobe.SortItems: a stable insertion sort stands in for JavaScript's `Array.prototype.sort`. The result is the stable sort by the comparator; no particular algorithm is implied.
- Dates.BirthDateOf: the sign of the year and years outside 0000-9999 in `strconv.Atoi` are not modelled.
- Loop-variable capture inside Go `for range` loops is not modelled, because the Go language version is not part of this model. Each iteration is taken to see its own element.
- Clothing repository queries that no modelled service reaches are not modelled:
  - `GetByCategory`, `GetByTags`, `GetFavorites`, `GetRecentlyAdded`;
  - `GetMostWorn`, `GetLeastWorn`, the `Get*Stats` queries;
  - `GetItemTags`, `UpdateDurability`.
- Outfit repository extras are not modelled. Neither are the clothing and attachment lookups in `convertToOutfitDTO` whose results never reach the DTO.
- The purchase model's hooks (`CalculateDiscount`, `CalculateWarrantyExpiry`, `BeforeCreate`/`BeforeUpdate`) and its fields that the service never reads or writes are not modelled. The record carries the fields the service uses.
- PurchaseService: the service reads and writes `record.Price` and `record.Store`, but `models.PurchaseRecord` declares `PurchasePrice` and `StoreName` instead (server/models/purchase_record.go:13,16). The model takes the service's `Price` to be the column `PurchasePrice` and its `Store` to be `StoreName`.
- PurchaseService: the interface `PurchaseRecordService` is declared twice in package `services` (server/services/clothing_interfaces.go:88 and server/services/purchase_record_service.go:14), so the package does not compile as given. The model follows the implementation in purchase_record_service.go.
- The purchase repository's warranty, payment-method and discount statistics queries are not modelled.
- Wear repository extras are not modelled: `GetByWeather`, the comfort queries, and the weather/activity/mood statistics.
- UserStore: `GetByEmail` is not modelled, because no service calls it.
- The tag service's list queries (`GetAllTags`, `GetTagsByType`, `GetSystemTags`, `GetUserTags`, `GetPopularTags`) are plain repository reads; their rows are parameters.
- Add page:
  - `handleAddImage` only shows a toast and is not modelled;
  - `handleSave` and `handleCancel` navigate after a timer, so only their state changes are modelled.
- useWardrobe: `fetchStats`/`mockStats` and the loading flags are not modelled. Neither are toasts shown by the handlers.
- `TableName` methods are constants without contracts.
- ClothingItemService.BatchDeleteClothingItems: every row deactivated in one batch gets the same update time `now`; the program reads the clock once per `Update` statement, so its rows may carry slightly different times.
- AttachmentService.ByUser: its own contract states only the bound under a positive limit. Membership, order, completeness without a limit and the length under a limit are stated by `AttachmentService.ByUserRows`.
- ItemRepository.Search: its own contract states only the bound and that every result is a hit. Order, completeness without a limit and the length under a limit are stated by `ItemRepository.SearchRows`.
- OutfitService: the service reads and writes `Name`, `Occasion`, `Location`, `Tags`, `IsPublic` and `RatingNotes` on an outfit and stores a pointer to an `api.OutfitRating` in `Rating` (server/services/outfit_service.go:198-216), but `models.Outfit` declares none of those fields and declares `Rating` as a plain `int` (server/models/outfit.go:10-30), so the package does not compile as written. The model follows the service and gives the outfit the fields the service uses.
- Register.ParseIntJs: JavaScript's `parseInt` returns a double, so digit strings beyond about 15 significant digits lose precision. The model returns the exact integer, and `Register.Payload` posts that exact value.
- The date-range queries (`WearService.ByDateRange`, `PurchaseService.ByDateRange`) take their bounds as times. The program passes the bounds as strings to SQL `BETWEEN`, which compares the column with those strings; date formats and the string comparison are not modelled.
- Seqs.SortWith: a stable sort, so rows with equal keys keep their table order. SQL `ORDER BY` leaves the order of ties unspecified; the proved properties about order state only the key order, but the concrete results fix one order of ties.
- Go encodes a nil slice, such as an empty `var dtos []T` that nothing was appended to, as JSON `null`. The model returns the empty list there, and the HTTP encoding is not modelled.

## Findings

| source | as written | input that shows it | evidently intended | confidence | as-written member | corrected member |
|---|---|---|---|---|---|---|
| server/services/clothing_category_service.go:227-235 | updating a category's parent checks only that the new parent exists and is not the category itself, so a descendant is accepted | categories {1: root "上衣", 2: "T恤" with parent 1}; update 1 with parent 2; walking up the parents from 1 then never reaches a root, so building its path loops forever | refuse a new parent whose own chain of parents reaches the category | not executed | CategoryStore.UpdateCanCloseCycle | CategoryStore.CheckedUpdateKeepsChainsEnding |
| server/services/user_service.go:80-84 | the birth date is read by `time.Parse("2006-01-02", t.String())`, but `String()` prints the clock and zone after the date, so the parse always fails and the birth date is never stored | birth date 1990-05-17 00:00:00 UTC; `String()` gives "1990-05-17 00:00:00 +0000 UTC", which the date-only layout rejects | store the calendar date of the given time | not executed | Dates.BirthDateAsWritten | Dates.BirthDateOf |
