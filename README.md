# Terraform generator: a verified model of its selection and generation logic

The repository is a small Terraform-snippet generator. A React widget
(`frontend/frontend.js`) lets the user pick a cloud provider and one of its
resources, and types out a two-block configuration snippet one character at
a time. A Python backend (`backend/backend.py`) has two handlers. Each
validates a generate request and serialises a
`resource "<name>" "example" { … }` block. The backend also has a scraper
whose string rules pick option lines and resource links out of the Terraform
registry documentation.

This Dafny project models that logic and proves what it promises:

- `wrappers.dfy` (module `Wrappers`): the `Option` type.
- `seqs.dfy` (module `Seqs`): order-preserving filtering (`Array.prototype.filter`) and the dictionary that a loop of `d[key] = value` assignments builds.
- `strings.dfy` (module `Strings`):
  - the whitespace classes of JavaScript (`\s`, `trim`) and Python (`str.isspace`, `strip`);
  - ASCII lower-casing;
  - stripping;
  - first-occurrence search (`includes`, `split(sep, 1)`).
- `frontend.dfy` (modules `Frontend` and `FrontendExamples`):
  - the catalog (3 providers, 6 resources) and the per-provider resource list;
  - the case-insensitive search filter and the identifier normaliser;
  - the snippet template and the tick-driven emitter.

  The component is the class `Frontend.TerraformGenerator`. Its fields are the six `useState` fields, plus the code and the counter `i` that the interval callback closes over. Each handler and each interval firing is a method whose new state is a step function of the old state (`ProviderSelected`, `SearchChanged`, `ResourceSelected`, `GenerateStarted`, `Ticked`). These step functions act on the value type `Ui`, and the lemmas about whole runs are stated on them.
- `backend.dfy` (module `Backend`):
  - the request (`provider` and `resource`, each possibly missing, and the option dictionary's items in insertion order);
  - the validation with its early returns;
  - the two `generate_terraform` handlers as methods with loops, each proved equal to a specification function;
  - the option-line parse of `scrape_resource_options`;
  - the `<provider>_` filter of `scrape_provider_docs`, with the two dictionaries they fill.

Two behaviours of the source are modelled as written:

- The normaliser calls `replace(/\s+/g, ' ', '_')`. JavaScript ignores that third argument, so each whitespace run becomes ONE SPACE, and `Google Cloud Platform` becomes `google cloud platform` (`FrontendExamples.NormalizeGoogle`). The third argument `'_'` suggests that an underscore was meant. JavaScript ignores that argument, and the model follows the code.
- `generateCode` does not clear `generatedCode`. A second generation appends to the text of the first (`Frontend.EmissionCompletes`).

The emitter has no cancellation. Selecting another provider during an emission clears the output, but the running interval then writes the rest of the old snippet into it (`Frontend.ProviderSwitchMidEmission`). A second interval cannot start meanwhile, because the generate button is disabled while `isGenerating` holds. `StartGenerate` requires exactly that condition.

The backend's name check is `re.match(r'^[a-zA-Z0-9_]+$', …)`. Python's `$` also matches before one final newline, so `ami\n` is an accepted option or resource name (`Backend.MatchesNameSpec`).

## Model

| member | source | states |
|---|---|---|
| Seqs.Filter | frontend/frontend.js:29 | `filter` keeps exactly the elements the test accepts and never lengthens the list |
| Seqs.FilterIsSubsequence | frontend/frontend.js:33-35 | a filtered list is a subsequence of the original: order is preserved |
| Seqs.AssignKeys | backend/backend.py:51-59 | a key is in a dictionary filled by a loop of assignments exactly when some iteration assigned it |
| Seqs.AssignLastWins | backend/backend.py:58-59 | the stored value is the one from the last iteration that assigned the key |
| Strings.Lower | frontend/frontend.js:34 | `toLowerCase` keeps the length and lower-cases each character (ASCII only) |
| Strings.StripSpec | frontend/frontend.js:57 | `trim`/`strip` leaves no whitespace at either end, returns a contiguous slice of the input, and cuts off whitespace only |
| Strings.StripPadded | frontend/frontend.js:49-57 | stripping whitespace padding around a string that begins and ends with something else returns that string |
| Strings.IndexOf | backend/backend.py:56 | the split point of `split(' - ', 1)` is the FIRST occurrence of the separator, and `None` means no occurrence |
| Strings.Contains | frontend/frontend.js:34 | `includes` holds exactly when the term occurs at some index |
| Frontend.OfferedByIsFilter | frontend/frontend.js:29 | the written-out per-provider list equals `mockResources.filter(r => r.provider === provider)` |
| Frontend.ResourcesOfSpec | frontend/frontend.js:27-31 | a provider's options are exactly the catalog resources with that provider, in catalog order |
| Frontend.FilterResourcesSpec | frontend/frontend.js:33-35 | `filteredResources` keeps exactly the options whose lower-cased name contains the lower-cased term, in order, and an empty term keeps them all |
| Frontend.CollapseShape | frontend/frontend.js:50 | after `replace(/\s+/g, ' ', '_')` no two whitespace characters are adjacent and every whitespace character is a space |
| Frontend.CollapseRun | frontend/frontend.js:50 | every maximal whitespace run, between characters that are not whitespace or at either end, becomes exactly one space |
| Frontend.CollapseKeepsContent | frontend/frontend.js:50 | the replacement removes only whitespace: the non-whitespace characters are kept in order |
| Frontend.NormalizeIsNormalForm | frontend/frontend.js:50 | a normalised identifier has no whitespace at either end, single spaces only, and no upper-case letter |
| Frontend.NormalizeKeepsContent | frontend/frontend.js:54 | normalising keeps every non-whitespace character of the lower-cased input, in order |
| Frontend.NormalizeFixesNormalForms | frontend/frontend.js:50 | the normaliser leaves a string unchanged exactly when it is already lower-case, trimmed and single-spaced |
| Frontend.NormalizeIdempotent | frontend/frontend.js:54 | normalising twice equals normalising once |
| Frontend.PreviewAgreesWithNormalize | frontend/frontend.js:97 | the `providers.tf` preview applies the same rule without the trim, and shows the same name for a name without surrounding whitespace |
| Frontend.TemplateTrim | frontend/frontend.js:49-57 | the outer `trim` removes exactly the template's leading newline and trailing indentation |
| Frontend.SynthesizeCodeSpec | frontend/frontend.js:49-57 | the code is exactly the provider block and the resource block of the normalised names, separated by an empty line |
| Frontend.ProviderSelectedSpec | frontend/frontend.js:37-41 | selecting a provider sets it, clears the resource and the output, derives its options, keeps the search term and the generating flag, and keeps the invariant |
| Frontend.ResourceSelectedSpec | frontend/frontend.js:43-45 | choosing a resource shown in the drop-down, or the empty entry, keeps the invariant that the selection is one of the options |
| Frontend.GenerateStartedKeepsInvariant | frontend/frontend.js:47-48 | starting a generation raises `isGenerating` and keeps the invariant |
| Frontend.TickedKeepsInvariant | frontend/frontend.js:60-68 | an interval firing keeps the invariant |
| Frontend.TicksEmit | frontend/frontend.js:61-63 | `n` firings before the end append the next `n` characters of the code, advance `i` by `n`, and change nothing else |
| Frontend.EmissionCompletes | frontend/frontend.js:59-68 | after one firing per character of the code the output is the old output followed by the code; the next firing lowers `isGenerating` and changes nothing else |
| Frontend.ProviderSwitchMidEmission | frontend/frontend.js:37-41 | switching provider during an emission clears the output, which then receives only the rest of the old code |
| Frontend.TerraformGenerator.constructor | frontend/frontend.js:20-25 | the initial state: empty strings, no options, not generating |
| Frontend.TerraformGenerator.SelectProvider | frontend/frontend.js:37-41 | the new state is `ProviderSelected` of the old one, with the effect's re-derivation included |
| Frontend.TerraformGenerator.SetSearch | frontend/frontend.js:109 | only the search term changes |
| Frontend.TerraformGenerator.SelectResource | frontend/frontend.js:43-45 | only the selected resource changes, and the invariant is kept |
| Frontend.TerraformGenerator.StartGenerate | frontend/frontend.js:47-59 | the flag rises, the code is synthesised, the counter starts at zero, and the output is NOT cleared |
| Frontend.TerraformGenerator.Tick | frontend/frontend.js:60-68 | before the end it appends `code[i]` and advances `i`; at the end it lowers `isGenerating` |
| FrontendExamples.ResourcesOfAmazon | frontend/frontend.js:13-14 | Amazon Web Services offers EC2 Instance then S3 Bucket |
| FrontendExamples.NormalizeGoogle | frontend/frontend.js:50 | `Google Cloud Platform` normalises to `google cloud platform`, with spaces and no underscores |
| Backend.MatchesNameSpec | backend/backend.py:78 | the name pattern accepts exactly the non-empty `[A-Za-z0-9_]` words, and those words followed by one newline |
| Backend.OptionsErrorNone | backend/backend.py:82-86 | the option loop passes exactly when every option passes its own two checks |
| Backend.OptionsErrorFirst | backend/backend.py:82-86 | the first failing option in insertion order decides the error; the name check comes before the value-type check |
| Backend.ValidateSpec | backend/backend.py:69-86 | a request passes validation exactly when it is present, names a known provider, matches the resource pattern, and has valid options |
| Backend.PresenceCheckedFirst | backend/backend.py:69-71 | a missing or empty provider or resource gives "Provider and resource must be specified" in both handlers, before any other check |
| Backend.GenerateSucceeds | backend/backend.py:69-96 | a reply carries code exactly when every check passed |
| Backend.DisplayIntRoundTrip | backend/backend.py:92 | an integer option value is written in decimal and reads back as the same integer |
| Backend.OptionLinesAppend | backend/backend.py:90-92 | the option lines follow the input order: consecutive option lists give consecutive lines |
| Backend.OptionLinesSelected | backend/backend.py:91 | options with a falsy value (`""`, `0`, `False`) contribute no line |
| Backend.PlaceholderLinesAgree | backend/backend.py:119-123 | the Flask handler writes the same lines as the asynchronous one would, with every value replaced by `placeholder_value` |
| Backend.FlaskAcceptsMore | backend/backend.py:110-125 | the Flask handler refuses only a missing provider or resource, so it accepts whatever the asynchronous handler accepts |
| Backend.CheckOptions | backend/backend.py:82-86 | the validation loop with its early returns yields the first failing option's error |
| Backend.BuildCode | backend/backend.py:89-93 | the `code +=` loop yields the header, the lines of the truthy options in order, and `}` |
| Backend.GenerateTerraform | backend/backend.py:63-96 | the asynchronous handler's reply is the specified error, or the specified block |
| Backend.GenerateTerraformFlask | backend/backend.py:110-125 | the Flask handler's reply is the presence error, or the block with `placeholder_value` lines |
| Backend.ParseOptionLineNone | backend/backend.py:55-57 | a line yields nothing exactly when its stripped text has no `" - "` |
| Backend.ParseOptionLineRoundTrip | backend/backend.py:55-59 | a padded `<name> - <description>` line yields that name and description when the name has no whitespace and the description is non-empty and unpadded |
| Backend.ParseOptionLines | backend/backend.py:51-59 | the option dictionary is the one the loop's assignments build from the parsed lines |
| Backend.ParsedOptionsKeys | backend/backend.py:54-59 | an option name is recorded exactly when some line parses to it |
| Backend.ParsedOptionsSpec | backend/backend.py:58-59 | a later line with the same name overwrites an earlier one: the last description wins |
| Backend.CollectResources | backend/backend.py:32-45 | the resource dictionary is the one built from the links whose stripped text starts with `<provider>_` |
| Backend.CollectedResourcesSpec | backend/backend.py:36-43 | every kept resource has the provider prefix and its own name, and its URL joins the base URL to the `href` of the LAST link with that name, since later links overwrite earlier ones |
| Backend.CollectedResourcesComplete | backend/backend.py:36-39 | every link whose stripped text starts with `<provider>_` is kept under that name |

## Left out

- Rendering: JSX, styling, logos and the icon (frontend/frontend.js:71-168). The three provider buttons are modelled as calls of `SelectProvider` with one of the catalog's provider names. The drop-down is modelled as calls of `SelectResource` with one of the shown names or the empty entry.
- The option checkboxes and value inputs (frontend/frontend.js:131-144). No state reads them.
- Timing and React scheduling. The 50 ms interval is one `Tick` call per firing. The effect is folded into `SelectProvider`. Updater functions are taken to run with the counter value of their own firing. Batching and deferred updates are not modelled.
- Strings.LowerChar: lower-cases ASCII letters only. JavaScript's full Unicode case mapping is not modelled. The whitespace classes of both languages are modelled in full.
- Frontend.TerraformGenerator.SelectProvider: requires one of the provider names of `cloudProviders`, because the buttons pass nothing else (frontend/frontend.js:76-79). The effect's empty-provider case is kept in `ProviderSelected`.
- Frontend.TerraformGenerator.StartGenerate: requires the button-enabled condition, because the disabled button is its only caller. Overlapping intervals are therefore not modelled.
- Frontend.ProviderPreview: the preview block is modelled without a contract of its own. Its name rule is covered by `PreviewAgreesWithNormalize`.
- HTTP and I/O:
  - Flask, aiohttp, JSON parsing and `jsonify`, status codes (an `Error` reply stands for status 400), CORS, the Redis cache and logging (backend/backend.py:1-18, 70, 88, 98-107);
  - `requests.get` and the BeautifulSoup traversal of the scrapers (backend/backend.py:27-35, 47-54). The link texts, `href`s and list items are given as inputs;
  - the nested scrape of each resource's options (backend/backend.py:42), so `ResourceDoc` holds only the name and the URL.
- app.py is not part of this model. It is a process launcher.
- Backend.Request: `provider` and `resource` are modelled as strings or missing, and `options` as a dictionary. Other JSON values are left out. With them, the Flask handler accepts any truthy provider and resource and writes `str(resource)` into the header, so a resource `5` gives `resource "5" "example" {` (backend/backend.py:116-119). The asynchronous handler answers "Invalid provider" for a hashable non-string provider such as a number or `true` (backend/backend.py:74). It raises for an unhashable provider, a list or an object (backend/backend.py:74), and for a non-string resource at the name check (backend/backend.py:78). An `options` value that is not a dictionary makes both handlers raise when they reach `options.items()`.
- Backend.Display: renders the accepted value types (`str`, `int`, `bool`) as `str` does. Any other value renders as nothing; no reply reaches that case, because the validation rejects such values before any code is written (`Backend.ValidateSpec`).
- Backend.GenerateTerraform: does not escape quotes or newlines in names or values. Neither does the source, so the block is exactly the text the source writes.
- Backend.GenerateTerraformFlask: the Flask handler rebinds the name of the asynchronous one, and the asynchronous one is never registered as a route. Both are modelled as separate handlers.
- Backend.CollectResources: requires a key of the provider URL table, since the source indexes the table with it.
