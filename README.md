# AIRBud 2.0 core, modelled in Dafny

AIRBud 2.0 is a retrieval-augmented assistant built from several services.
This project models the logic at the heart of four of them and proves what
that logic promises.

- **rag_core**
  - `DocumentChunker` (module `Chunking`, properties in `ChunkingProps`, the chunk record in `Chunks`) splits parsed markdown at `## Page N` markers. It cuts each page into parent chunks and each parent into child chunks, and links every child to its parent through a uuid.
  - The two retrieval pipelines (`Pipeline` for pipeline.py and `RagPipeline` for rag_pipeline.py) do three things:
    - inject chart descriptions into the markdown (`Indexing`);
    - index the child chunks and map FAISS neighbours back to parent chunks (`Retrieval`);
    - build the answer prompt (`Prompting`).
  - The LLM clients and query rewording are in `Llm`.
  - The chart listing of a session is in `Services`, and the stable sort it uses is in `Sorting`.
  - The smart-card and OAuth authentication is in `Auth`: distinguished-name parsing, friendly names, organisation roles, and the 300-second user cache.
- **parser**
  - The current `DocumentParser` (`Parser`) and the older `document_parser.py` (`LegacyParser`) turn PDF, DOCX and PPTX files into markdown with `[CHART_PLACEHOLDER:…]` lines.
  - `ChartDetector` (`Detector`) finds the figures and tables whose crops those placeholders name.
  - `Handoff` proves what the chunker makes of a parsed presentation.
- **vision**: `ModelManager` (`Manager`) keeps at most one vision model resident and creates Whisper once.
- **kg_service** (`KnowledgeGraph`) filters extracted triples before writing them, builds the search context string, and aggregates the collection graph into unique nodes and links.

Where the source mutates state, the model does too:
- the chunker, the pipelines, the auth cache, the detector, the parsers and the model manager are classes whose methods change their fields;
- loops are `while` and `for` loops, each proved against a specification function.

Foreign calls (HTTP, FAISS, embeddings, Neo4j, LibreOffice, Detectron2, OpenCV, the LangChain splitter, `uuid4`, the clock) are parameters of the model: their answers, or a function that gives them. `Wrappers` holds `Option` and `Result`. `Strings` holds the Python string operations the source relies on: case mapping and digit tests cover ASCII only, and whitespace follows `str.isspace`.

## Model

| member | source | states |
|---|---|---|
| Strings.LStrip | services/rag_core/src/core/auth.py:171-172 | the result is a suffix of the input, what was removed is all whitespace, and the result does not start with whitespace |
| Strings.RStrip | services/rag_core/src/core/auth.py:171-172 | the result is a prefix of the input, what was removed is all whitespace, and the result does not end with whitespace |
| Strings.StripUnpadded | services/rag_core/src/core/auth.py:239 | text that neither starts nor ends with whitespace is unchanged by strip |
| Strings.BlankIffAllSpace | services/rag_core/src/core/llm.py:30 | text strips to nothing exactly when it is all whitespace |
| Strings.Upper | services/rag_core/src/core/auth.py:229 | same length, each character mapped to its ASCII upper case |
| Strings.UpperUncased | services/rag_core/src/core/auth.py:232-236 | text without small letters, such as OU=CONTRACTOR, is its own upper case |
| Strings.Lower | services/parser/src/core/parser.py:29 | same length, each character mapped to its ASCII lower case |
| Strings.LowerUncased | services/rag_core/src/core/auth.py:216-217 | text without capitals is its own lower case |
| Strings.Capitalize | services/rag_core/src/core/auth.py:216-217 | capitalize keeps the length |
| Strings.Title | services/rag_core/src/core/auth.py:221-223 | title keeps the length |
| Strings.NatToStringDigits | services/parser/src/core/parser.py:118 | the decimal text of a number is a non-empty run of digits |
| Strings.NatToStringRoundTrip | services/parser/src/core/parser.py:118 | the decimal text of a number reads back as that number |
| Strings.IntToString | services/rag_core/src/core/pipeline.py:79-81 | the text of an integer is non-empty and holds only digits and minus signs |
| Strings.FindFrom | services/rag_core/src/core/pipeline.py:57 | the first occurrence at or after a position, or None exactly when there is none |
| Strings.ContainsIff | services/rag_core/src/core/auth.py:232-236 | the in test holds exactly when the pattern occurs at some position |
| Strings.ReplaceAbsent | services/rag_core/src/core/pipeline.py:57 | replacing a pattern that does not occur leaves the text unchanged |
| Strings.ReplaceLeavesNone | services/rag_core/src/core/pipeline.py:57 | after replacing a pattern by newline-framed text that does not contain it, the pattern no longer occurs, and neither does any newline-free text the input and the replacement lacked |
| Strings.ReplaceKeepsApart | services/rag_core/src/core/pipeline.py:57 | an occurrence of a text that overlaps no occurrence of the pattern survives the replacement |
| Strings.Without | services/rag_core/src/core/llm.py:52 | the result holds no occurrence of the removed character and is no longer than the input |
| Strings.ReplaceCharByNothing | services/rag_core/src/core/llm.py:52 | replacing a character by nothing removes exactly its occurrences and keeps the rest in order |
| Strings.SplitOn | services/rag_core/src/core/auth.py:193 | split yields at least one part and no part holds the separator |
| Strings.SplitJoinRoundTrip | services/rag_core/src/core/auth.py:210 | joining the parts of a split with the separator gives back the text |
| Strings.SplitOnFirst | services/rag_core/src/core/auth.py:210 | text before the first separator is the first part, and the rest splits as the remainder |
| Strings.SplitOnAbsent | services/rag_core/src/core/rag_pipeline.py:95 | text without the separator splits into itself alone |
| Strings.LexLeTotal | services/rag_core/src/core/services.py:99 | string order compares any two strings |
| Strings.LexLeAntisymmetric | services/rag_core/src/core/services.py:99 | strings ordered both ways are equal |
| Strings.LexLeTransitive | services/rag_core/src/core/services.py:99 | string order is transitive |
| Strings.Basename | services/parser/src/core/parser.py:70 | the basename holds no slash |
| Strings.BasenameOfJoin | services/rag_core/src/core/rag_pipeline.py:95-96 | joining a directory without a trailing slash and a slash-free name gives back that name as basename and that directory as dirname |
| Strings.BasenameOfSlashFree | services/parser/src/core/parser.py:131 | any directory joined with a slash-free name has that name as its basename |
| Strings.Splitext | services/parser/src/core/parser.py:29-30 | stem and extension concatenate to the path |
| Chunks.NewChunk | services/rag_core/src/core/data_models.py:21-32 | a chunk built from the four required fields carries them, with no parent id, `is_parent` false and empty metadata |
| Chunking.DigitRun | services/rag_core/src/core/chunking.py:30 | the greedy `\d+`: all the characters it covers are digits, and the next one is not |
| Chunking.MarkerEnd | services/rag_core/src/core/chunking.py:30 | a marker `## Page ` plus at least one digit ends inside the text, at least nine characters after its start |
| Chunking.FirstMarker | services/rag_core/src/core/chunking.py:30 | the leftmost marker at or after a position, and None when there is none |
| Chunking.SplitOnMarkers | services/rag_core/src/core/chunking.py:87 | `re.split` with one capture group gives an odd number of parts: text, marker, text, …, text |
| Chunking.FirstPartIsNotMarker | services/rag_core/src/core/chunking.py:87 | the first part of the split is the text before the first marker, never a marker itself |
| Chunking.MarkerNumber | services/rag_core/src/core/chunking.py:103-106 | `int(part.rsplit(' ', 1)[-1])` of a marker always succeeds and is the value of its digits, so the malformed-marker branch is unreachable |
| Chunking.Keep | services/rag_core/src/core/chunking.py:113-123 | blank text gives no segment, other text one segment on the current page |
| Chunking.StepSegments | services/rag_core/src/core/chunking.py:94-128 | one turn of the loop: a marker sets the page and takes the next part as its content, jumping two parts; any other part stays on the current page, jumping one |
| Chunking.SegmentsFollowMarkers | services/rag_core/src/core/chunking.py:87-128 | walking the split parts yields, stretch by stretch, text before the first marker on the starting page and each later stretch on the page its marker names |
| Chunking.SegmentsAtMarker | services/rag_core/src/core/chunking.py:87-128 | the walk over a text whose first marker is at `p` yields the text before `p`, then the rest from the page `p` names |
| Chunking.AddChildren | services/rag_core/src/core/chunking.py:168-181 | the children of one parent are appended, one per child text |
| Chunking.DocumentChunker.constructor | services/rag_core/src/core/chunking.py:32-55 | the splitter settings default to 400/50 for children and 2000/200 for parents |
| Chunking.DocumentChunker.Process | services/rag_core/src/core/chunking.py:57-135 | the result is `ProcessSpec`: nothing for empty text, an error above 500 MiB, otherwise the chunks of the page segments in order |
| Chunking.DocumentChunker.ChunkPageText | services/rag_core/src/core/chunking.py:137-181 | the child list, the parent map and the uuid counter after one page are those of the page fold `ChunkPage` |
| ChunkingProps.IssuedGrows | services/rag_core/src/core/chunking.py:153-171 | the set of uuids issued only grows as calls are made |
| ChunkingProps.AddChildrenShape | services/rag_core/src/core/chunking.py:168-181 | every appended chunk is a child of its parent: its `parent_id` is the parent's id, its text comes from the splitter, and it keeps the parent's page and file |
| ChunkingProps.AddParentGood | services/rag_core/src/core/chunking.py:152-181 | adding one parent and its children keeps the chunk invariant `Good` and uses up fresh uuids |
| ChunkingProps.PageAccGood | services/rag_core/src/core/chunking.py:150-181 | one page's parents and children keep the invariant `Good` |
| ChunkingProps.ChunkSegmentsGood | services/rag_core/src/core/chunking.py:94-128 | chunking any sequence of segments keeps the invariant `Good` |
| ChunkingProps.ProcessLinksChildrenToParents | services/rag_core/src/core/chunking.py:57-181 | with distinct uuids, every child's `parent_id` resolves in the parent map to a parent of the same file and page that the child was cut from, and every map entry is a parent under its own id |
| ChunkingProps.AddChildrenTexts | services/rag_core/src/core/chunking.py:168-181 | the children's texts are the child splitter's output, in order |
| ChunkingProps.PageChildrenInOrder | services/rag_core/src/core/chunking.py:150-181 | on one page the children are the child splitter's output on each parent text in turn |
| ChunkingProps.PageKeysIssued | services/rag_core/src/core/chunking.py:150-165 | every key of the parent map is a uuid already issued |
| ChunkingProps.AddParentStores | services/rag_core/src/core/chunking.py:153-165 | each parent goes into the map under a fresh id, and no earlier entry is overwritten |
| Auth.SkipSpace | services/rag_core/src/core/auth.py:168 | the `\s*` after a comma: every character it skips is whitespace, and it stops at the end or at a non-space |
| Auth.ValueEnd | services/rag_core/src/core/auth.py:168 | `[^,]+` runs up to the next comma or the end of the DN and holds no comma |
| Auth.ValueAfterKey | services/rag_core/src/core/auth.py:168-169 | a captured `KEY=` value is non-empty and holds no comma |
| Auth.MatchAt | services/rag_core/src/core/auth.py:168-169 | a match of the `KEY=` pattern, at the start or after a comma, has a non-empty, comma-free group |
| Auth.FirstMatch | services/rag_core/src/core/auth.py:168-169 | `re.search` finds the leftmost match: the pattern matches at the result and nowhere before it, and None means no position matches |
| Auth.FindTenDigits | services/rag_core/src/core/auth.py:180-188 | `re.search(r'\d{10}')` gives the leftmost start of ten digits, and None means there is none |
| Auth.TenDigitRun | services/rag_core/src/core/auth.py:180-182 | the group found is exactly ten digits |
| Auth.LastPart | services/rag_core/src/core/auth.py:193-194 | `cn.split('.')[-1]` is a suffix of the CN |
| Auth.PivId | services/rag_core/src/core/auth.py:177-195 | the PIV id is "0" or a string of digits |
| Auth.ParseDn | services/rag_core/src/core/auth.py:158-201 | an empty DN gives the defaults ("0", "Unknown User", "Unknown"); otherwise the PIV id is "0" or all digits, and it has ten digits exactly when the DN holds ten consecutive digits |
| Auth.CnDigitsInDn | services/rag_core/src/core/auth.py:171-188 | ten digits in the stripped CN are ten digits of the DN, so the CN search never finds what the DN search would not |
| Auth.PivIdLength | services/rag_core/src/core/auth.py:177-195 | both directions: the PIV id is ten long if and only if the DN holds a ten-digit run |
| Auth.FirstMatchAt | services/rag_core/src/core/auth.py:168-172 | a match with none before it is what the search returns, and the field is its stripped group |
| Auth.LeadingCn | services/rag_core/src/core/auth.py:168-171 | a DN that starts `CN=v,` has CN `v.strip()` |
| Auth.NoOrgBeforeLastComma | services/rag_core/src/core/auth.py:169 | in `CN=…,OU=…,O=v` the `O=` pattern does not match at the `OU=` field or anywhere before the last comma |
| Auth.OrgAtLastComma | services/rag_core/src/core/auth.py:169 | in `CN=…,OU=…,O=v` the `O=` pattern matches at the last comma with group `v` |
| Auth.TrailingOrg | services/rag_core/src/core/auth.py:169-172 | in `CN=…,OU=…,O=v` the organisation is `v.strip()` |
| Auth.ParseDnLayout | services/rag_core/src/core/auth.py:158-201 | a DN `CN=cn,OU=ou,O=o` with comma-free values yields the stripped `cn` and `o` |
| Auth.NameParts | services/rag_core/src/core/auth.py:212 | every kept part is non-empty and not all digits |
| Auth.NamePartsKeeps | services/rag_core/src/core/auth.py:212 | both directions: a part is kept if and only if it is non-empty and not all digits |
| Auth.FriendlyName | services/rag_core/src/core/auth.py:203-208 | an empty CN or "Unknown User" becomes "Guest User" |
| Auth.CapitalizeLower | services/rag_core/src/core/auth.py:216-217 | `.lower().capitalize()` is `.capitalize()` |
| Auth.FriendlyNameOfParts | services/rag_core/src/core/auth.py:210-218 | with two or more name parts the name is the second part then the first, each lower-cased and capitalised |
| Auth.FriendlyNameOfCacName | services/rag_core/src/core/auth.py:203-218 | a CAC name `LAST.FIRST.…` becomes `First Last` |
| Auth.UpperContains | services/rag_core/src/core/auth.py:229-232 | `pat in dn.upper()` holds if and only if `pat` occurs in the DN ignoring ASCII case |
| Auth.Role | services/rag_core/src/core/auth.py:229-237 | each role, in both directions: Contractor when `OU=CONTRACTOR` occurs in any case, else Civilian, else Military, else none |
| Auth.FormatOrganization | services/rag_core/src/core/auth.py:225-243 | `"Role, org"` with the organisation stripped, or the stripped organisation alone when there is no role |
| Auth.ContractorRole | services/rag_core/src/core/auth.py:232-233 | any DN holding `OU=CONTRACTOR` has the Contractor role, whatever else it holds |
| Auth.Lookup | services/rag_core/src/core/auth.py:122-132 | a user is found if and only if its key is cached and not yet expired; a hit leaves the cache as it was; a miss deletes the key |
| Auth.Purged | services/rag_core/src/core/auth.py:143-148 | exactly the entries that have not expired are kept, and they are unchanged |
| Auth.Stored | services/rag_core/src/core/auth.py:134-141 | the key maps to the user with expiry `now + 300` |
| Auth.StoredIsFound | services/rag_core/src/core/auth.py:122-141 | a stored user is found again until 300 seconds have passed |
| Auth.StoredKeepsLive | services/rag_core/src/core/auth.py:137-141 | storing, even with a purge, keeps every other entry that had not expired |
| Auth.MockUser | services/rag_core/src/core/auth.py:245-265 | the mock user is "Test User" of "Contractor, U.S. Government", with the database's id or 1 when the upsert fails |
| Auth.MockNames | services/rag_core/src/core/auth.py:247-252 | the mock CN formats to "Test User" and the mock DN to "Contractor, U.S. Government" |
| Auth.CurrentUser | services/rag_core/src/core/auth.py:33-105 | outside test and ephemeral mode, a non-guest user came from an OAuth e-mail header or from a verified certificate outside OAUTH mode; without either the result is the guest and the cache is unchanged |
| Auth.CacUserCached | services/rag_core/src/core/auth.py:72-101 | a user that the certificate branch stored is served from the cache until the TTL runs out |
| Auth.RepeatLoginIsCached | services/rag_core/src/core/auth.py:33-101 | the same certificate headers within the TTL give the same user again, whatever the database would answer now |
| Auth.GuestIsRefused | services/rag_core/src/core/auth.py:58-70 | without a verified certificate or an OAuth e-mail the user's id is 0, which `require_user` refuses |
| Auth.AuthHandler.constructor | services/rag_core/src/core/auth.py:24-31 | the cache starts empty |
| Auth.AuthHandler.GetCachedUser | services/rag_core/src/core/auth.py:122-132 | the result and the new cache are those of `Lookup` |
| Auth.AuthHandler.PurgeExpiredCache | services/rag_core/src/core/auth.py:143-148 | deleting the expired keys one by one leaves `Purged` of the old cache |
| Auth.AuthHandler.SetCachedUser | services/rag_core/src/core/auth.py:134-141 | the new cache is `Stored` of the old one |
| Auth.AuthHandler.ProcessOAuthUser | services/rag_core/src/core/auth.py:267-316 | the user and the new cache are those of the OAuth branch of `CurrentUser` |
| Auth.AuthHandler.GetCurrentUser | services/rag_core/src/core/auth.py:33-105 | the user and the new cache are those of `CurrentUser` |
| Auth.AuthHandler.RequireUser | services/rag_core/src/core/auth.py:107-120 | the current user, or 403 "Smart Card Required" if and only if its id is 0 |
| Detector.PadAndClamp | services/parser/src/core/detector.py:141-145 | the padded box is clamped to the page |
| Detector.PadKeepsBox | services/parser/src/core/detector.py:141-145 | padding a box that lies on the page keeps all of it, stays on the page, and adds at most the padding on each side |
| Detector.TargetClasses | services/parser/src/core/detector.py:38-46 | of the six PubLayNet labels exactly Table (3) and Figure (4) are kept |
| Detector.MlBoxes | services/parser/src/core/detector.py:135-147 | at most one box per prediction, each on the page |
| Detector.MlKept | services/parser/src/core/detector.py:136-147 | one prediction gives at most one box, on the page |
| Detector.MlBoxesAppend | services/parser/src/core/detector.py:135-147 | the boxes of two runs of predictions are those of each run in turn |
| Detector.MlBoxesFilter | services/parser/src/core/detector.py:135-147 | the ML loop is a filter then a map: one prediction gives its padded box exactly when its class is a figure or a table |
| Detector.HeuristicBoxes | services/parser/src/core/detector.py:177-196 | at most one box per contour, each on the page |
| Detector.HeuristicKept | services/parser/src/core/detector.py:178-196 | one contour gives at most one box, on the page |
| Detector.HeuristicBoxesAppend | services/parser/src/core/detector.py:177-196 | the boxes of two runs of contours are those of each run in turn |
| Detector.HeuristicFilter | services/parser/src/core/detector.py:177-196 | a rectangle under 100 pixels either way, more than five times longer one way than the other, or covering under 5% or over 90% of the page is dropped; any other gives its padded box |
| Detector.Detection | services/parser/src/core/detector.py:108-115 | every box `detect` returns lies on the page |
| Detector.DetectionFallsBack | services/parser/src/core/detector.py:108-155 | an unloaded detector, or a model that raised, gives the heuristic's boxes; a loaded model that answered gives the ML boxes; all lie on the page |
| Detector.Device | services/parser/src/core/detector.py:63-71 | the device is "cuda" if and only if CUDA is available; Apple's MPS also gets "cpu" |
| Detector.ChartDetector.constructor | services/parser/src/core/detector.py:34-46 | a new detector is not loaded |
| Detector.ChartDetector.LoadModel | services/parser/src/core/detector.py:48-86 | a loaded detector, or one without Detectron2, is left as it was; otherwise it ends loaded if and only if every step succeeded, with a predictor on the chosen device |
| Detector.ChartDetector.Offload | services/parser/src/core/detector.py:200-207 | afterwards there is no predictor and the detector is not loaded, whatever the state before |
| Detector.ChartDetector.Detect | services/parser/src/core/detector.py:108-115 | the boxes are `Detection` for the detector's loaded flag |
| Detector.DetectMl | services/parser/src/core/detector.py:117-155 | the loop's boxes are `Detection` of a loaded model: the ML boxes, or the heuristic's if prediction raised |
| Detector.DetectHeuristic | services/parser/src/core/detector.py:157-198 | the loop's boxes are `HeuristicBoxes` of the contours, in order |
| Parser.PlaceholderLine | services/parser/src/core/parser.py:71 | a placeholder line starts with a newline and `[`, which is how placeholders are told apart from the other pieces |
| Parser.SavedCrops | services/parser/src/core/parser.py:184-192 | at most one saved path per detected box |
| Parser.SavedCropsSound | services/parser/src/core/parser.py:184-192 | every returned path was written, under the number of one of the boxes |
| Parser.SavedCropsComplete | services/parser/src/core/parser.py:184-192 | a failed save drops only its own crop: every box whose crop was written is returned under its own number |
| Parser.SavedCropsAll | services/parser/src/core/parser.py:184-192 | when every save succeeds there is one crop per box, in box order, the k-th named `{prefix}_visual_{k+1}.png` |
| Parser.PlaceholderLines | services/parser/src/core/parser.py:69-71 | one placeholder line per saved crop |
| Parser.PlaceholderLinesAt | services/parser/src/core/parser.py:69-71 | the k-th line names the basename of the k-th crop |
| Parser.PdfPlaceholdersFollowImages | services/parser/src/core/parser.py:56-74 | in a PDF the placeholders appear in the same order as the returned images, exactly one for each |
| Parser.PdfPieceCount | services/parser/src/core/parser.py:56-71 | each page adds its heading and one piece per saved crop |
| Parser.DocxNameSlashFree | services/parser/src/core/parser.py:98 | `docx_visual_{count}.png` holds no `/`, so it is its own basename after `os.path.join` |
| Parser.DocxCount | services/parser/src/core/parser.py:88-102 | `count` ends at the number of large images, and at most that many are saved |
| Parser.DocxPaired | services/parser/src/core/parser.py:88-102 | the pieces after the paragraphs are exactly one placeholder per saved image, in image order |
| Parser.DocxConsecutive | services/parser/src/core/parser.py:96-101 | when every save succeeds the DOCX images are `docx_visual_1.png`, `docx_visual_2.png`, … with no gap |
| Parser.ShapeTextsNotBlank | services/parser/src/core/parser.py:121-123 | no kept shape text is blank, and there are at most as many as shapes |
| Parser.ShapeTextsComplete | services/parser/src/core/parser.py:121-123 | every shape text that is not blank is kept |
| Parser.ShapeTextsAreNotPlaceholders | services/parser/src/core/parser.py:121-123 | shape texts that do not start like a placeholder line keep none that does |
| Parser.UnrenderedSlidesHaveNoCrops | services/parser/src/core/parser.py:126-132 | when the conversion rendered no slide, the presentation yields no crop |
| Parser.PptxPlaceholdersFollowImages | services/parser/src/core/parser.py:117-134 | in a presentation whose shape texts do not start like a placeholder line, the placeholders appear in the same order as the returned images |
| Parser.ParseErrors | services/parser/src/core/parser.py:29-49 | an extension other than .pdf, .docx or .pptx, in any ASCII case, is refused, and only then; a supported file fails if and only if its library cannot read it, never because a save or the slide conversion failed |
| Parser.DocumentParser.constructor | services/parser/src/core/parser.py:17-19 | the parser keeps its detector and output directory |
| Parser.DocumentParser.Parse | services/parser/src/core/parser.py:21-49 | a missing file gives FileNotFoundError and changes nothing; otherwise the asset directory is `output_dir/<stem>` and the result is what the extractor for the lower-cased extension returns |
| Parser.DocumentParser.ProcessVisuals | services/parser/src/core/parser.py:180-194 | the saved paths are `PageCrops`: the detector's boxes, cropped and kept when their save succeeded |
| Parser.DocumentParser.PlaceholdersFor | services/parser/src/core/parser.py:69-71 | the inner loop adds `PlaceholderLines` of the crops |
| Parser.DocumentParser.TextsOf | services/parser/src/core/parser.py:121-123 | the inner loop keeps `ShapeTexts` of the shapes |
| Parser.DocumentParser.ExtractFromPdf | services/parser/src/core/parser.py:51-74 | the text is the pages' pieces joined by newlines and the images are the saved crops, both as `PdfAssembly` gives them |
| Parser.DocumentParser.ExtractFromDocx | services/parser/src/core/parser.py:76-106 | the text is the paragraphs then the image placeholders, joined by blank lines, with the images as `DocxFold` gives them |
| Parser.DocumentParser.ExtractFromPptx | services/parser/src/core/parser.py:108-134 | the text is each slide's heading, shape texts and placeholders joined by blank lines, with the images as `PptxAssembly` gives them |
| Parser.DocumentParser.ConvertPptxToImages | services/parser/src/core/parser.py:136-178 | the rendered slides, or none when the conversion failed or timed out |
| LegacyParser.PathList.constructor | services/parser/src/core/document_parser.py:31 | the image list starts empty |
| LegacyParser.PathList.Append | services/parser/src/core/document_parser.py:81 | `img_list.append` adds one path at the end |
| LegacyParser.PathList.Extend | services/parser/src/core/document_parser.py:57 | `img_list.extend` adds the paths at the end, in order |
| LegacyParser.LegacyCrops | services/parser/src/core/document_parser.py:104-113 | a failure is always a failed save |
| LegacyParser.LegacyCropsAllOrNothing | services/parser/src/core/document_parser.py:104-113 | both directions: the crops succeed if and only if every save does, and then they are every box's crop in box order; otherwise the error names the first crop that could not be saved |
| LegacyParser.LegacyCropsAgree | services/parser/src/core/document_parser.py:104-113 | when every save succeeds the older parser saves the same crops as the current one |
| LegacyParser.AllCrops | services/parser/src/core/document_parser.py:107-112 | one crop per box |
| LegacyParser.LegacyCropsOk | services/parser/src/core/document_parser.py:107-112 | a success holds every box's crop |
| LegacyParser.LegacyCropsErrorPersists | services/parser/src/core/document_parser.py:107-112 | once a save has failed, later boxes change nothing: the failure propagates |
| LegacyParser.PdfFailure | services/parser/src/core/document_parser.py:47-62 | the first page that fails, failing by a save |
| LegacyParser.LegacyPdf | services/parser/src/core/document_parser.py:44-64 | a PDF fails only by a failed save |
| LegacyParser.PdfFailurePersists | services/parser/src/core/document_parser.py:47-62 | a failure ends the document: later pages change nothing |
| LegacyParser.LegacyPdfSnoc | services/parser/src/core/document_parser.py:47-62 | a page whose crops are all saved extends the assembly by its heading, its placeholders and its crops |
| LegacyParser.LegacyPdfStopsAt | services/parser/src/core/document_parser.py:56 | a page whose crops fail ends the document with that failure |
| LegacyParser.PdfFailureNone | services/parser/src/core/document_parser.py:47-62 | both directions: no page fails if and only if every page's crops are saved |
| LegacyParser.LegacyPdfSucceeds | services/parser/src/core/document_parser.py:44-64 | both directions: a PDF succeeds if and only if every page's crops are saved |
| LegacyParser.AllCropsSaved | services/parser/src/core/document_parser.py:107-112 | when every save succeeds, the current parser's crops are every box's crop |
| LegacyParser.LegacyPdfPagesAgree | services/parser/src/core/document_parser.py:47-62 | with the same detections and no failed save, the pages are assembled as the current parser assembles them |
| LegacyParser.LegacyPdfAgrees | services/parser/src/core/document_parser.py:44-64 | with the same detections and no failed save, the older parser turns a PDF into the same text and images as the current one |
| LegacyParser.LegacyDocx | services/parser/src/core/document_parser.py:66-83 | a DOCX fails only by an image that does not open or a failed save |
| LegacyParser.LegacyDocxSnoc | services/parser/src/core/document_parser.py:73-82 | one more relationship is one more step of the loop |
| LegacyParser.LegacyDocxErrorPersists | services/parser/src/core/document_parser.py:73-82 | a failure ends the document: later relationships change nothing |
| LegacyParser.NamedFromSnoc | services/parser/src/core/document_parser.py:78-82 | saving the next image under the list's length keeps the naming `docx_img_{k}.png` for the k-th path |
| LegacyParser.LegacyDocxStepNamed | services/parser/src/core/document_parser.py:74-82 | one relationship keeps the naming |
| LegacyParser.LegacyDocxNamed | services/parser/src/core/document_parser.py:73-82 | on success the k-th saved path is `docx_img_{start + k}.png`, `start` being the list's length before |
| LegacyParser.LegacyDocxUnreadableFails | services/parser/src/core/document_parser.py:74-76 | an image reference whose image does not open fails the whole document |
| LegacyParser.FilterAppend | services/parser/src/core/document_parser.py:98-100 | filtering two runs of texts is filtering each in turn |
| LegacyParser.CurrentDropsBlankTexts | services/parser/src/core/document_parser.py:98-100 | the current parser keeps exactly the older one's slide texts that are not blank |
| LegacyParser.LegacyPptxCount | services/parser/src/core/document_parser.py:96-100 | each slide gives its heading and one piece per shape with text |
| LegacyParser.LegacyParseShape | services/parser/src/core/document_parser.py:25-42 | an extension other than .pdf, .docx or .pptx is refused, and only then; a PPTX never yields images and fails only when it cannot be read; a DOCX's images are numbered from 0 |
| LegacyParser.LegacyDocumentParser.constructor | services/parser/src/core/document_parser.py:16-18 | the parser keeps its output directory |
| LegacyParser.LegacyDocumentParser.ParseAndGetImages | services/parser/src/core/document_parser.py:20-42 | the result is `LegacyParse` of the lower-cased extension in `output_dir/<stem>`, with no existence check |
| LegacyParser.LegacyDocumentParser.ExtractFromPdf | services/parser/src/core/document_parser.py:44-64 | succeeds exactly when `LegacyPdf` does, with the same error; on success the text is the pieces joined by newlines and the crops are appended to the list |
| LegacyParser.LegacyDocumentParser.PlaceholderLinesOf | services/parser/src/core/document_parser.py:60-62 | one placeholder line per crop, in order |
| LegacyParser.LegacyDocumentParser.ExtractFromDocx | services/parser/src/core/document_parser.py:66-83 | succeeds exactly when `LegacyDocx` does from the list's length, with the same error; on success the paragraphs and placeholders are joined by newlines and the images appended |
| LegacyParser.LegacyDocumentParser.ExtractFromPptx | services/parser/src/core/document_parser.py:85-102 | every slide heading and every shape text, blank or not, joined by newlines |
| LegacyParser.LegacyDocumentParser.ProcessVisuals | services/parser/src/core/document_parser.py:104-113 | the result is `LegacyCrops` for the detected boxes |
| Indexing.ParseDocument | services/rag_core/src/core/services.py:12-23 | the decoded JSON if and only if the request did not raise, the status is not an HTTP error and the body is JSON; a raised request is reported with its message |
| Indexing.Placeholder | services/rag_core/src/core/pipeline.py:55 | `[CHART_PLACEHOLDER:{fname}]` is bracketed and holds the file name after its 19-character tag |
| Indexing.VisualBlock | services/rag_core/src/core/pipeline.py:56 | the description block starts and ends with a newline |
| Indexing.DescribedKeys | services/rag_core/src/core/pipeline.py:49-52 | exactly the described images' names are added to `chart_descriptions` |
| Indexing.AllDescribed | services/rag_core/src/core/pipeline.py:49-52 | when every image was described, the added names are exactly the images' names |
| Indexing.DescribedLatest | services/rag_core/src/core/pipeline.py:49-52 | a name maps to the description of the last image of that name |
| Indexing.PlaceholderChars | services/rag_core/src/core/pipeline.py:55 | a placeholder of a plain name holds `[` only at its start, `]` only at its end, and no newline |
| Indexing.PlaceholdersApart | services/rag_core/src/core/pipeline.py:55-57 | placeholders of two different plain names never overlap |
| Indexing.NoPlaceholderWithoutBracket | services/rag_core/src/core/pipeline.py:55 | a text without `[` holds no placeholder |
| Indexing.BlockLacksBracket | services/rag_core/src/core/pipeline.py:56 | a block built from a name and a description without `[` has none |
| Indexing.ReplacementLeavesNone | services/rag_core/src/core/pipeline.py:57 | one `replace` leaves no placeholder of its own name and brings back none that was gone |
| Indexing.PlaceholdersReplaced | services/rag_core/src/core/pipeline.py:49-57 | every described image's placeholder is gone after the loop, when no image name holds `[`, `]` or a newline and no description holds `[` |
| Indexing.UndescribedPlaceholderStays | services/rag_core/src/core/rag_pipeline.py:50-71 | a placeholder stays when its image got no description and no described image has the same name: one image's block never replaces another's placeholder |
| Indexing.InjectedKeeps | services/rag_core/src/core/rag_pipeline.py:50-71 | one more image keeps a placeholder of another name |
| Indexing.ReplacementKeepsOthers | services/rag_core/src/core/pipeline.py:57 | replacing one image's placeholder keeps another's |
| Indexing.NothingDescribed | services/rag_core/src/core/rag_pipeline.py:50-71 | with no description at all, the markdown and the map stay as they were |
| Services.AnalyzeImage | services/rag_core/src/core/services.py:26-45 | the description, "" when the answer has none, or "Image analysis failed." when the request raised |
| Services.FirstPageTag | services/rag_core/src/core/services.py:78 | the leftmost match of `page(\d+)`, and None when there is none |
| Services.LeadingDigits | services/rag_core/src/core/services.py:78 | the greedy `\d+`: the longest run of digits at the front |
| Services.ChartPage | services/rag_core/src/core/services.py:78-79 | a file name without `page` followed by a digit is on page 0 |
| Services.ChartPageOfCrop | services/rag_core/src/core/services.py:78-79 | a crop the parser names `page{n}_visual_{k}.png` is listed on page `n` |
| Services.ChartPageOfDigits | services/rag_core/src/core/services.py:78-79 | a name that starts with `page` and a run of digits is on the page those digits spell |
| Services.LeadingDigitsOf | services/rag_core/src/core/services.py:78 | the digit run of digits followed by a non-digit is those digits |
| Services.ChartDescription | services/rag_core/src/core/services.py:82-87 | the value under the file name unless missing or empty, else the value under the name without its extension, else "No description available." |
| Services.ChartRecord | services/rag_core/src/core/services.py:68-97 | a record carries the file's basename and the document's original name |
| Services.FileCharts | services/rag_core/src/core/services.py:67-97 | one record per file |
| Services.GetChartsForSession | services/rag_core/src/core/services.py:50-100 | the records of every document whose chart directory is set and exists, file by file, stably sorted by `(doc_name, page)` |
| Services.ChartOrder | services/rag_core/src/core/services.py:99 | ordering by `(doc_name, page)` is a total preorder |
| Services.ChartsSortedStably | services/rag_core/src/core/services.py:99-100 | the listing is sorted by name then page, holds exactly the collected records, and keeps records with equal keys in the order found |
| Services.CollectedSnoc | services/rag_core/src/core/services.py:56-97 | one more document appends its records to those before it |
| Services.SkippedDocContributesNothing | services/rag_core/src/core/services.py:57-59 | a document without a usable chart directory adds no charts: the listing is as if it were absent |
| Services.SkipInside | services/rag_core/src/core/services.py:57-59 | the same, for a document anywhere in the list |
| Sorting.Insert | services/rag_core/src/core/services.py:99 | one more element in the sorted list |
| Sorting.SortBy | services/rag_core/src/core/services.py:99 | the stable sort keeps the length; `SortBySorts` and `SortByStable` state its order |
| Sorting.InsertElements | services/rag_core/src/core/services.py:99 | insertion adds exactly the one element |
| Sorting.InsertSorted | services/rag_core/src/core/services.py:99 | insertion into a sorted list keeps it sorted |
| Sorting.SortBySorts | services/rag_core/src/core/services.py:99 | Python's `list.sort`: keys come out ascending and the result is a permutation of the input |
| Sorting.SortByStable | services/rag_core/src/core/services.py:99 | elements with equal keys come out in the order they went in, as Python's sort is stable |
| Sorting.SameKeyInsert | services/rag_core/src/core/services.py:99 | insertion places an element after those with its key |
| Sorting.NoneAbove | services/rag_core/src/core/services.py:99 | nothing in a sorted list after a smaller key shares that key |
| Llm.Response | services/rag_core/src/core/llm.py:11-14 | a response carries its content and error, with empty metadata |
| Llm.Messages | services/rag_core/src/core/llm.py:79-82 | the system prompt when truthy, then the user prompt: two messages if and only if the system prompt is truthy |
| Llm.NewGroq | services/rag_core/src/core/llm.py:60-73 | the SDK client exists if and only if the key is set and its construction did not raise |
| Llm.GenerateFailsSoft | services/rag_core/src/core/llm.py:75-147 | `generate` never raises: a failure has empty content and an error; a request is made if and only if the client can; a Groq call succeeds if and only if its client exists and the SDK returned; a Sanctuary call if and only if the key is set and the provider answered 200 with content |
| Llm.LlmRegistry.constructor | services/rag_core/src/core/llm.py:150 | no client yet |
| Llm.LlmRegistry.GetLlmClient | services/rag_core/src/core/llm.py:152-159 | the first call makes the client, Groq if and only if the provider is "groq"; later calls return the same client |
| Llm.CutQuery | services/rag_core/src/core/llm.py:33-35 | a query over 2000 characters is cut to its first 2000 |
| Llm.RewordQuery | services/rag_core/src/core/llm.py:26-54 | blank input gives "" without a call; otherwise the cut query is sent with the rewording prompt; a failed or empty answer gives the cut query back; else the stripped answer without double quotes |
| Llm.RewordFailsOpen | services/rag_core/src/core/llm.py:26-54 | whatever the client answers, the result is the cut query or a text free of double quotes, and a failing client gives the query back |
| Prompting.BuildContext | services/rag_core/src/core/pipeline.py:136-138 | the `context_str +=` loop gives `ContextString` of the results |
| Prompting.ContextConcat | services/rag_core/src/core/pipeline.py:136-138 | the context of two runs of results is the two contexts one after the other |
| Prompting.ContextOfOne | services/rag_core/src/core/pipeline.py:138 | one result gives its `SOURCE:`/`CONTENT:` block |
| Prompting.ContextBlocks | services/rag_core/src/core/rag_pipeline.py:131-133 | result `k` contributes its own block after the blocks of those ranked above it |
| Prompting.PromptLayout | services/rag_core/src/core/rag_pipeline.py:136 | the prompt holds the header, each result's block in rank order, the question and the closing instruction |
| Pipeline.Analyses | services/rag_core/src/core/pipeline.py:49-52 | one description per image, the k-th being what the k-th vision call answered, or its failure text |
| Pipeline.DescribeCharts | services/rag_core/src/core/pipeline.py:48-57 | after the loop the text is `Injected` and the description map `Described` over the images and their analyses |
| Pipeline.SmartRag.constructor | services/rag_core/src/core/pipeline.py:17-36 | the process-wide LLM client (the one already made, if any), a chunker with the default sizes, and no index, chunks, parents or descriptions |
| Pipeline.SmartRag.IndexDocument | services/rag_core/src/core/pipeline.py:38-73 | the outcome and the new index, chunks, parents and descriptions are those of `IndexSpec` |
| Pipeline.SmartRag.Search | services/rag_core/src/core/pipeline.py:107-133 | nothing without an index; otherwise the search as written over the `3 * top_k` neighbours, with only the `idx < len` guard: IndexError when there are no child chunks and FAISS padded its answer, else the deduplicated results of the walk, the -1 padding yielding the last child as listed under Findings |
| Pipeline.SmartRag.GenerateAnswer | services/rag_core/src/core/pipeline.py:135-141 | one LLM call on the context blocks then the question, with no system prompt |
| Pipeline.SmartRag.SaveState | services/rag_core/src/core/pipeline.py:75-91 | nothing is written without an index; otherwise the index, the chunks and the parent map are written and the index and chunks paths returned |
| Pipeline.SmartRag.LoadState | services/rag_core/src/core/pipeline.py:93-105 | the new state and outcome are `LoadSpec`: FileNotFoundError unless both files exist; the parent map is replaced only when the parents file exists |
| Pipeline.ChunksSlash | services/rag_core/src/core/pipeline.py:102 | the `chunks/` directory name is not matched by `chunks_` |
| Pipeline.TagHit | services/rag_core/src/core/pipeline.py:102 | a `chunks_` at the front becomes `parents_` |
| Pipeline.NoTag | services/rag_core/src/core/pipeline.py:102 | a name without `c` is left alone |
| Pipeline.SwapTag | services/rag_core/src/core/pipeline.py:102 | in `…/chunks/chunks_<id>.pkl` only the file's tag is swapped to `parents_` |
| Pipeline.ParentsPathRoundTrip | services/rag_core/src/core/pipeline.py:80-102 | the parents path `load_state` derives from a chunks path is the one `save_state` wrote |
| Pipeline.SavedPathsDistinct | services/rag_core/src/core/pipeline.py:79-81 | the index, chunks and parents files of a document are at three different paths |
| Pipeline.SaveThenLoad | services/rag_core/src/core/pipeline.py:75-105 | loading what `save_state` wrote, at the paths it returned, restores the index, chunks and parent map, whatever the state before |
| Pipeline.StaleParentsKept | services/rag_core/src/core/pipeline.py:101-105 | without a parents file, loading keeps the parent map of whatever was there before, next to the loaded chunks |
| Pipeline.IndexDescribesEveryChart | services/rag_core/src/core/pipeline.py:49-52 | after indexing, `chart_descriptions` holds exactly the names it held before and every image's file name, each mapped to the analysis of the last image of that name |
| Pipeline.ChunkedTextHasNoPlaceholder | services/rag_core/src/core/pipeline.py:49-63 | every chart placeholder is replaced before chunking, failed analyses included, when no image name holds `[`, `]` or a newline and no description holds `[` |
| Pipeline.FailureTextLacksBracket | services/rag_core/src/core/pipeline.py:51 | the failure text of a vision call holds no `[`, so a failed call removes its placeholder too |
| Pipeline.EmptyDocumentKeepsStaleIndex | services/rag_core/src/core/pipeline.py:61-119 | a document that yields no chunks leaves the previous index in place next to empty chunks; a search then finds nothing when that index returns only real rows, and raises IndexError when it pads its answer with -1 |
| RagPipeline.ParseReply | services/rag_core/src/core/rag_pipeline.py:38-47 | the reply is usable if and only if the status is 200 and the JSON holds `text` and `images`; any other status raises "Parser failed: " with the body |
| RagPipeline.Descriptions | services/rag_core/src/core/rag_pipeline.py:50-71 | per image: nothing if and only if the vision call raised; otherwise its description, "" when the answer has none |
| RagPipeline.DescribeCharts | services/rag_core/src/core/rag_pipeline.py:50-71 | after the loop the text is `Injected` and the description map `Described` over the images and their outcomes |
| RagPipeline.FailedChartKeepsPlaceholder | services/rag_core/src/core/rag_pipeline.py:54-71 | a described image's placeholder is gone; a failed image's placeholder stays unless another image of that name was described |
| RagPipeline.UnderChunksDir | services/rag_core/src/core/rag_pipeline.py:94-95 | a slash-free name under `data/chunks` has that directory and that base name |
| RagPipeline.IdOfChunksName | services/rag_core/src/core/rag_pipeline.py:95 | `split("_")[1].split(".")[0]` of `<tag>_<id>.<ext>` is `id` |
| RagPipeline.ParentsUnderChunksDir | services/rag_core/src/core/rag_pipeline.py:88-96 | the joined parents path is the one `save_state` writes |
| RagPipeline.ParentsFoundAfterSave | services/rag_core/src/core/rag_pipeline.py:88-96 | a chunks file `data/chunks/<tag>_<id>.<ext>` leads `load_state` to the parents file `save_state(id)` writes |
| RagPipeline.SaveThenLoadParents | services/rag_core/src/core/rag_pipeline.py:86-99 | the parent map written by `save_state` is the one `load_state` restores |
| RagPipeline.DistanceOrder | services/rag_core/src/core/rag_pipeline.py:127 | ordering by distance is a total preorder, as `sort(key=...)` needs |
| RagPipeline.KeptBeforeDropped | services/rag_core/src/core/rag_pipeline.py:127-128 | in a list sorted by distance nothing after the cut is nearer than anything before it |
| RagPipeline.RankedNearest | services/rag_core/src/core/rag_pipeline.py:126-128 | the ranking keeps `min(len, top_k)` results in ascending distance, drawn from the gathered ones, and no dropped result is nearer than a kept one |
| RagPipeline.Rows | services/rag_core/src/core/rag_pipeline.py:148-151 | one row of text, source and page per result, in order |
| RagPipeline.SmartRag.constructor | services/rag_core/src/core/rag_pipeline.py:21-32 | a chunker with the default sizes and no index, chunks, parents or descriptions |
| RagPipeline.SmartRag.IndexDocument | services/rag_core/src/core/rag_pipeline.py:34-84 | the outcome and the new state are those of `IndexSpec` |
| RagPipeline.SmartRag.Search | services/rag_core/src/core/rag_pipeline.py:101-118 | AttributeError without an index; IndexError when there are no child chunks and FAISS padded its answer; otherwise parents only, deduplicated, over the `3 * top_k` neighbours with only the `idx < len` guard, so -1 padding can add the last child's parent as listed under Findings |
| RagPipeline.SmartRag.SaveState | services/rag_core/src/core/rag_pipeline.py:86-89 | the parent map is written to `data/chunks/<id>_parents.pkl` |
| RagPipeline.SmartRag.LoadState | services/rag_core/src/core/rag_pipeline.py:91-99 | the new state and outcome are `LoadSpec` of what `load_rag_state` returned and the inferred parents path |
| RagPipeline.SmartRag.QueryMultiple | services/rag_core/src/core/rag_pipeline.py:120-154 | the first search that raises ends the call with its exception, since the searches run outside the `try`; otherwise three results at most from each pipeline, ranked together by distance, cut to `top_k`, and one prompt to the chat client, whose failure becomes an error result |
| RagPipeline.GatheredFailurePersists | services/rag_core/src/core/rag_pipeline.py:122-124 | once a search has raised, later pipelines change nothing |
| RagPipeline.GatheredFails | services/rag_core/src/core/rag_pipeline.py:122-124 | gathering fails exactly when some pipeline has no index, or has no child chunks while FAISS padded its answer |
| RagPipeline.GatheredParents | services/rag_core/src/core/rag_pipeline.py:122-124 | with the searches as written, every gathered result is a parent chunk of one of the pipelines, at most three per pipeline |
| RagPipeline.QueryAnswersFromParents | services/rag_core/src/core/rag_pipeline.py:120-154 | when no search raises, the answer draws on at most `top_k` parent chunks, nearest first, and the prompt and the returned rows list them in that order |
| Retrieval.PyIndex | services/rag_core/src/core/pipeline.py:119 | Python's `xs[i]`: `xs[i]` for a non-negative index, `xs[len + i]` for a negative one, always an element of the list |
| Retrieval.Take | services/rag_core/src/core/rag_pipeline.py:128 | `s[:n]` is the first `min(n, len(s))` elements |
| Retrieval.RankNeighbours | services/rag_core/src/core/pipeline.py:114-133 | the loop's results are `SearchSpec`: the deduplicated candidates of the neighbours, cut at `top_k` |
| Retrieval.StepSkips | services/rag_core/src/core/pipeline.py:117-132 | a turn that appends nothing leaves the remaining work as it was |
| Retrieval.StepTakes | services/rag_core/src/core/pipeline.py:117-132 | a turn that appends a result moves it from the remaining work to the results |
| Retrieval.SearchParentsOnce | services/rag_core/src/core/pipeline.py:114-133 | with the parent map the chunker builds, a search never returns the same parent twice and never more than `top_k` results |
| Retrieval.DroppedOrphansYieldParents | services/rag_core/src/core/rag_pipeline.py:108-118 | the rag_pipeline.py search returns parent chunks only |
| Retrieval.FallbackYieldsParentsOrChildren | services/rag_core/src/core/pipeline.py:117-129 | the pipeline.py search returns parents from the map or the child chunks themselves |
| Retrieval.OrphanFallsBack | services/rag_core/src/core/pipeline.py:127-129 | a neighbour whose child has no parent in the map yields that child, at the neighbour's distance |
| Retrieval.SearchNearestFirst | services/rag_core/src/core/pipeline.py:117-133 | when FAISS lists the neighbours nearest first, so are the results |
| Retrieval.RealCount | services/rag_core/src/core/pipeline.py:112 | the neighbours that name a row of the index are among the neighbours returned |
| Retrieval.PaddingYieldsNothing | services/rag_core/src/core/pipeline.py:117-119 | with the `0 <= idx` guard the source evidently intends, a search returns no more results than there were real neighbours: the -1 padding yields nothing |
| Retrieval.Walk | services/rag_core/src/core/pipeline.py:117-133 | the loop raises IndexError exactly when there are no child chunks, the guard is the one as written and FAISS padded its answer; otherwise it returns the deduplicated results cut at `top_k` |
| Retrieval.GuardedNeverRaises | services/rag_core/src/core/pipeline.py:118 | with the `0 <= idx` guard the loop never raises |
| Retrieval.NoChunksRaisesOnPadding | services/rag_core/src/core/pipeline.py:118-119 | as written, a search over no child chunks raises exactly when FAISS padded its answer, and otherwise finds nothing |
| Retrieval.NothingInRange | services/rag_core/src/core/pipeline.py:118 | neighbours that all fail the range guard yield nothing |
| Retrieval.PaddingIsNotReal | services/rag_core/src/core/pipeline.py:112 | neighbours all outside the index, the -1 padding among them, name no row |
| Retrieval.PaddingRepeatsLastChild | services/rag_core/src/core/pipeline.py:117-129 | as written, with one child and two results asked for, the -1 padding brings the same child back a second time |
| Retrieval.PaddingAddsLastParent | services/rag_core/src/core/rag_pipeline.py:108-115 | as written, one real neighbour under `p0` still returns `p1` too, the parent of the last child, through the -1 padding |
| Manager.Factory | services/vision/src/core/manager.py:61-68 | a model is built exactly for the three names Moondream2, Ollama-Gemma3 and Ollama-Granite3.2-Vision, the Ollama ones with tags gemma3 and granite3.2-vision; any other name gives None |
| Manager.ModelManager.constructor | services/vision/src/core/manager.py:14-20 | a new manager has no active model, an empty active name and no Whisper model |
| Manager.ModelManager.GetModel | services/vision/src/core/manager.py:22-43 | the resident model with the requested name is returned without loading or offloading; otherwise the resident model is offloaded first, a known name that loads becomes the active model and name, and an unknown name or failed load returns None and leaves no model resident; Whisper is untouched and the resident model always matches its name |
| Manager.ModelManager.GetWhisper | services/vision/src/core/manager.py:45-59 | a cached Whisper is returned with nothing else changed; on first use the vision model is offloaded, the active name cleared, and the new Whisper kept whether or not its load succeeded |
| Manager.ManagerSingleton.constructor | services/vision/src/core/manager.py:11-12 | before the first construction there is no instance |
| Manager.ManagerSingleton.New | services/vision/src/core/manager.py:14-20 | the first construction creates a fresh manager with empty fields; every later one returns that same object with its fields untouched |
| Manager.WhisperOnce | services/vision/src/core/manager.py:45-59 | two Whisper requests in a row return the same model, the one created by the first request when none was cached, and leave no vision model resident |
| Manager.SecondRequestIsCached | services/vision/src/core/manager.py:22-43 | after a successful load, asking again for the same name returns the same model even when a new load would fail, and offloads nothing |
| KnowledgeGraph.ValidTriples | services/kg_service/src/graph_store.py:21-24 | the filtered batch is no longer than the input and holds only triples with subject, object and predicate set and non-empty |
| KnowledgeGraph.ValidTriplesAppend | services/kg_service/src/graph_store.py:21-24 | the filter works triple by triple: the survivors of a concatenation are the survivors of each part, in order |
| KnowledgeGraph.ValidTriplesMembers | services/kg_service/src/graph_store.py:21-24 | a triple survives the filter exactly when it is in the input and complete |
| KnowledgeGraph.ValidTriplesFilter | services/kg_service/src/graph_store.py:21-24 | both halves together: membership exactly for complete input triples, and order kept across a split of the input |
| KnowledgeGraph.InsertTriples | services/kg_service/src/graph_store.py:14-54 | nothing is written for a None or empty input or when no triple is complete; otherwise exactly the complete triples are written, in input order |
| KnowledgeGraph.NothingWrittenIffNoneComplete | services/kg_service/src/graph_store.py:26-28 | nothing is written exactly when no input triple is complete |
| KnowledgeGraph.SearchSubgraph | services/kg_service/src/graph_store.py:55-75 | a driver error yields no rows |
| KnowledgeGraph.SearchIgnoresCase | services/kg_service/src/graph_store.py:70 | queries equal up to ASCII case, and a query and its lower-cased form, get the same rows |
| KnowledgeGraph.SearchGraph | services/kg_service/main.py:52-58 | the raw rows are the subgraph search result unchanged and the context is built from them line by line |
| KnowledgeGraph.LineHasNoNewline | services/kg_service/main.py:57 | a row whose values hold no newline gives a line without one |
| KnowledgeGraph.Lines | services/kg_service/main.py:56-57 | one line per row |
| KnowledgeGraph.LinesAt | services/kg_service/main.py:56-57 | the k-th line is the line of the k-th row |
| KnowledgeGraph.SplitContext | services/kg_service/main.py:55-57 | splitting the context at newlines gives the rows' lines and a final empty text |
| KnowledgeGraph.ContextLines | services/kg_service/main.py:52-58 | when no value holds a newline the context has exactly one line per row, in row order, each source rel target separated by single spaces |
| KnowledgeGraph.Mentions | services/kg_service/main.py:76-80 | each row mentions two names, its source then its target |
| KnowledgeGraph.FirstMention | services/kg_service/main.py:77-80 | the position of a name's first mention: it mentions the name and no earlier mention does |
| KnowledgeGraph.FirstMentionKept | services/kg_service/main.py:77-80 | a later mention does not move an existing first mention |
| KnowledgeGraph.FirstMentionNew | services/kg_service/main.py:77-80 | the first mention of a new name is the one just added |
| KnowledgeGraph.MentionedSnoc | services/kg_service/main.py:77-80 | a name is mentioned after one more mention exactly when it was mentioned before or is the new one |
| KnowledgeGraph.AddKeysMentioned | services/kg_service/main.py:77-80 | one step of the node loop keeps the table's keys equal to the names mentioned so far |
| KnowledgeGraph.AddOrderListsKeys | services/kg_service/main.py:73-80 | one step keeps the insertion order a list of the keys without repeats |
| KnowledgeGraph.AddTypedByFirst | services/kg_service/main.py:77-80 | one step keeps every node typed by its name's first mention |
| KnowledgeGraph.AddOrderedByFirst | services/kg_service/main.py:73-88 | one step keeps the keys in order of first mention |
| KnowledgeGraph.AddFits | services/kg_service/main.py:76-80 | one step of the loop preserves the whole node-table invariant |
| KnowledgeGraph.TableOfFits | services/kg_service/main.py:73-80 | the table built from any mentions satisfies the node-table invariant |
| KnowledgeGraph.Links | services/kg_service/main.py:82-86 | one link per row |
| KnowledgeGraph.GetFullGraph | services/kg_service/main.py:60-91 | a failed query yields an empty node and link list; otherwise the graph is the one the rows determine |
| KnowledgeGraph.FullGraphShape | services/kg_service/main.py:73-88 | one link per row in row order labelled with rel; nodes unique by name, present exactly for the mentioned names, typed by their first mention, grouped as Entity and listed in order of first mention |
| KnowledgeGraph.LinksInOrder | services/kg_service/main.py:82-86 | the k-th link joins the k-th row's source and target under its rel |
| KnowledgeGraph.MentionsOfRows | services/kg_service/main.py:76-80 | a name is mentioned exactly when it is the source or target of some row |
| Handoff.CropNameIsPlain | services/parser/src/core/parser.py:187 | a crop file name built from a plain prefix holds neither a hash nor a slash |
| Handoff.PlaceholderLineHasNoMarker | services/parser/src/core/parser.py:132 | a chart placeholder line for a plain file name holds no page marker |
| Handoff.SlideHeaderHasNoMarker | services/parser/src/core/parser.py:118 | the slide heading is never a page marker |
| Handoff.SlideCropLinesHaveNoMarker | services/parser/src/core/parser.py:124-133 | no chart placeholder of a slide holds a page marker |
| Handoff.ShapeTextsFromShapes | services/parser/src/core/parser.py:121-123 | every text the slide loop keeps is the text of one of the slide's shapes |
| Handoff.ShapeTextsHaveNoMarker | services/parser/src/core/parser.py:121-123 | the kept texts of a slide whose shapes hold no marker hold none |
| Handoff.SlidePiecesHaveNoMarker | services/parser/src/core/parser.py:117-133 | a slide's heading, texts and placeholders hold no marker when its shapes hold none |
| Handoff.PptxPiecesHaveNoMarker | services/parser/src/core/parser.py:117-134 | no piece of a presentation holds a marker when no shape text does |
| Handoff.BlankLineJoin | services/parser/src/core/parser.py:134 | joining two marker-free texts with a blank line creates no marker |
| Handoff.JoinHasNoMarker | services/parser/src/core/parser.py:134 | a blank-line join of marker-free pieces is marker-free |
| Handoff.NoMarkerIsOnePage | services/rag_core/src/core/chunking.py:87-128 | text without a page marker is attributed whole to the starting page |
| Handoff.PptxTextIsPageZero | services/parser/src/core/parser.py:117-134 | a parsed presentation whose shapes hold no marker reaches the chunker as one stretch on page 0, because the slide headings never match the page-marker pattern |

## Left out

- services/rag_core/src/core/persistence.py (`save_rag_state`, `load_rag_state`) is not part of this model. `RagPipeline.SmartRag.LoadState` takes what it returned as a parameter, and the files are the map in `Storage`.
- `PubLayNetDetector` (src.utils.chart_detection) is not part of this model. The parsers take its detections as the `detect` parameter.
- Settings and environment values (`AUTH_MODE`, `EPHEMERAL_MODE`, `TEST_MODE`, API keys, the LLM provider) are parameters, because they are read from the environment at run time.
- Two settings are fixed constants instead. `Pipeline.DataDir` is `/app/data/`, the data directory of services/rag_core/src/config.py. `Chunking.MaxDocumentSizeChars` is 500 MiB, the default that chunking.py uses when the settings give no `MAX_DOCUMENT_SIZE_CHARS`. A deployment that overrides either is not modelled.
- HTTP, databases and the model runtimes are not modelled. This covers requests, FastAPI endpoints, SQL upserts, Neo4j sessions, Groq/Ollama calls, LibreOffice, pdf2image, PyMuPDF, python-docx, python-pptx, Detectron2 and OpenCV. Each call is replaced by its answer or by a function returning it.
- The Cypher queries are not modelled. The knowledge graph's `delete_collection`, `delete_document` and `delete_document_nodes` consist only of a Cypher query, so the model has nothing to state about them. `process_ingest` and `ingest_text` only chain the extractor, a background task and `insert_triples`. The `LIMIT` clauses are therefore not modelled either: the rows are whatever the driver returned.
- Floating-point distances and timestamps are integers. Only the order of distances and the comparison of times matter to the modelled code.
- Embeddings and the FAISS index are not modelled. A search is given the neighbour list FAISS returns, with -1 as its padding label.
- The LangChain splitters are not modelled. Their output is a function parameter `split(text, size, overlap)`, so the model does not capture how the text is cut.
- `uuid4` is an injective function of the call number. Two calls never collide.
- Pixel content of crops and rendered pages is not modelled. A crop is its path, and whether it was saved is a parameter.
- `os.makedirs` and the existence checks on directories and files are inputs.
- Threading locks, async and FastAPI background tasks are not modelled. Every operation is sequential.
- Case mapping, `isdigit` and `\d` are ASCII only, where the source uses Unicode. Whitespace (`strip`, `\s`) follows `str.isspace`.
- LegacyParser.LegacyDocumentParser.ExtractFromPdf: after a failed save, the image list holds whatever earlier pages appended. The model leaves the list's contents unspecified in that case.
- Parser.DocumentParser.ConvertPptxToImages: the slide conversion either renders every slide or none. A partial render is not modelled.
- Handoff.PptxTextIsPageZero: the proof assumes that no shape text itself holds a `## Page N` marker.
- Auth.FriendlyName: the contract states only the guest case. The two-part case is `Auth.FriendlyNameOfParts`. The one-part case (`title()` of the part) and the no-part case (`title()` of the dotted name) are stated only in the body.
- Strings.Capitalize: the contract states only that the length is kept. The character mapping is in the body, and `Auth.CapitalizeLower` states what the friendly name needs.
- Strings.Title: the contract states only that the length is kept. The word-start rule is in the body.
- Strings.IntToString: the contract states only the alphabet and non-emptiness. `Strings.NatToStringRoundTrip` states the round trip for non-negative numbers.
- Strings.Splitext: the contract states only that the stem and the extension make up the path. The leading-dot rule is in the body.
- Strings.Basename: the contract states only that the result holds no slash. `Strings.BasenameOfJoin` and `Strings.BasenameOfSlashFree` state its value on joined paths.
- Chunking.AddChildren: the contract states only the count of children. `ChunkingProps.AddChildrenShape` and `ChunkingProps.AddChildrenTexts` state their fields.
- Services.FileCharts: the contract states only one record per file. `Services.ChartRecord`, `Services.ChartPage` and `Services.ChartDescription` state each record's fields.
- Sorting.SortBy: the contract states only that the length is kept. `Sorting.SortBySorts` and `Sorting.SortByStable` state order, permutation and stability.
- LegacyParser.AllCrops: the contract states only the count. `LegacyParser.LegacyCropsAllOrNothing` states the contents.
- Parser.SavedCrops: the contract states only the bound. `Parser.SavedCropsSound`, `Parser.SavedCropsComplete` and `Parser.SavedCropsAll` state the contents.

## Findings

| source | as written | input that shows it | evidently intended | confidence | as-written member | corrected member |
|---|---|---|---|---|---|---|
| services/rag_core/src/core/pipeline.py:117-129 | the guard `idx < len(self.child_chunks)` lets FAISS's -1 padding through, and `child_chunks[-1]` is then the last child | one child chunk, `top_k = 2`: FAISS returns six neighbours, labels `[0, -1, -1, -1, -1, -1]`, and the search returns the one child twice, at distances 1 and 9 | skip padding labels with `0 <= idx < len(...)`, so a search returns only real neighbours | not executed | Retrieval.PaddingRepeatsLastChild | Retrieval.PaddingYieldsNothing |
| services/rag_core/src/core/rag_pipeline.py:108-115 | the same guard lets the -1 padding through, and the last child's parent is added | two children under parents `p0` and `p1`, `top_k = 2`, labels `[0, -1, -1, -1, -1, -1]`: the search returns `p0` and also `p1`, which no neighbour matched | skip padding labels with `0 <= idx`, so only parents of real neighbours are returned | not executed | Retrieval.PaddingAddsLastParent | Retrieval.PaddingYieldsNothing |

The `SmartRag` classes of both pipelines run the searches as written, so their contracts carry the repeated child, the extra parent and the IndexError. `Retrieval.ChildFallbackGuarded` and `Retrieval.DropOrphansGuarded` are the corrected searches, and `Retrieval.GuardedNeverRaises` and `Retrieval.PaddingYieldsNothing` state what the correction buys.
