# Caption generator core, modelled in Dafny

The caption generator takes an image and a text prompt about a vehicle
part. It detects objects in the image, works out which vocabulary words the
prompt names, picks the detection that best matches those words, crops it and
captions the crop. This project models the deterministic core of that flow and
proves properties of the model:

- `SemanticMatcher` (semantic_matcher.py) models keyword extraction and best
  match selection. Extraction keeps the vocabulary words that are whole
  tokens of the lower-cased, whitespace-split prompt. Selection scores each
  detection by its mean similarity to the keywords, or to "car" and
  "vehicle" when there are none. It takes the first index of the maximum
  score and accepts it when that score is at least 0.3. The similarity of
  two words (the embedding model and cosine similarity) is a parameter
  `sim`.
- `Text` models the string operations the core uses: ASCII `lower()`,
  whitespace `split()`, and the decimal rendering of an HTTP status.
- `Utils` (utils.py) models loading the vocabulary: a nested loop that
  adds the lower-cased part names of every category to a set. Any failure
  gives the empty set.
- `Pipeline` (logic/pipeline.py) covers two operations and the HTTP rule:
  - Drawing the detections on an image: a `Canvas` class whose methods
    record the drawing calls.
  - `run_pipeline` as a function of its collaborators: decoding, the
    detector, painting and encoding, the remote match service, cropping and
    captioning. The model keeps its early exits in source order with their
    exact error strings.
  - The HTTP rule of main.py: every error is answered with 404.
- `TestApi` (test_api.py) models the client's choice of MIME type for an
  image file. It applies POSIX `os.path.splitext` and then lower-cases the
  result.
- `MatcherExamples` holds worked examples of extraction and matching on
  concrete prompts.

Every Dafny function is deterministic. A repeated call with the same inputs
and the same collaborators therefore gives the same result, which is how
the model covers that property of the source.

Three behaviours of the code that the model keeps as written:

- main.py:57-58 answers every error of the pipeline with 404, the internal
  error included.
- The live pipeline gets its match from a remote service. The local
  `find_best_match` call is commented out (logic/pipeline.py:49). As a
  result, the matched label need not be the label of any detection.
- The falsy-body check appears twice in a row in the code
  (logic/pipeline.py:65-69). The second check can never fire, so the model
  makes it once.

## Model

| member | source | states |
|---|---|---|
| Text.Lower | semantic_matcher.py:15 | the result has the input's length; each character is lower-cased, ASCII letters only; the result is lower case |
| Text.Split | semantic_matcher.py:15 | every piece `split()` yields is a non-empty word with no whitespace |
| Text.SplitJoin | semantic_matcher.py:15 | splitting words joined by single spaces gives back exactly those words |
| Text.SplitSeparated | semantic_matcher.py:15 | splitting at a whitespace character gives the pieces of the left side followed by the pieces of the right side |
| Text.SplitLowerCase | semantic_matcher.py:15 | every piece of a lower-case string is lower case |
| Text.Tokens | semantic_matcher.py:15 | every token of `set(text.lower().split())` is a lower-case word with no whitespace |
| Text.TokensOfWords | semantic_matcher.py:15 | a text that lower-cases to single-space-joined words has exactly those words as tokens |
| Text.TokensOfSpaceRun | semantic_matcher.py:15 | two spaces separate tokens as one space does |
| Text.NatToString | logic/pipeline.py:59 | the decimal rendering of a status code is non-empty, all digits, and has no leading zero |
| Text.ParseNatToString | logic/pipeline.py:59 | reading the rendering back gives the status code |
| Text.NatToStringInjective | logic/pipeline.py:59 | different status codes give different messages |
| SemanticMatcher.KeepMembers | semantic_matcher.py:16 | a word is kept iff it is in the vocabulary and in the prompt's words; never longer than the vocabulary |
| SemanticMatcher.ExtractKeywords | semantic_matcher.py:13-18 | a keyword is a word iff it is a vocabulary word and a whole token of the lower-cased prompt; every keyword is a lower-case word |
| SemanticMatcher.ExtractKeywordsDistinct | semantic_matcher.py:16 | keywords drawn from a set have no duplicates |
| SemanticMatcher.ExtractKeywordsOrderFree | semantic_matcher.py:16 | two iteration orders of the same vocabulary give keyword lists that are permutations of each other |
| SemanticMatcher.SpaceRunsIgnored | semantic_matcher.py:15-16 | a run of spaces in the prompt extracts the same keywords as one space |
| SemanticMatcher.MatchTerms | semantic_matcher.py:37-39 | the scoring terms are never empty |
| SemanticMatcher.FallbackTerms | semantic_matcher.py:37-39 | with no keywords the match is the one for exactly ["car", "vehicle"] |
| SemanticMatcher.MeanScore | semantic_matcher.py:50 | the mean of one detection's column: the count of terms times the mean is the sum of the label's similarities to the terms |
| SemanticMatcher.Scores | semantic_matcher.py:34-50 | one mean score per detection, in detection order |
| SemanticMatcher.ArgMax | semantic_matcher.py:51 | the index is a maximum of the scores and no earlier score equals it |
| SemanticMatcher.FirstMaxUnique | semantic_matcher.py:51 | the first maximum is unique |
| SemanticMatcher.FindBestMatch | semantic_matcher.py:20-61 | no detections gives None; None iff every score is below 0.3; otherwise the detection at the first maximum, whose score is at least 0.3 |
| SemanticMatcher.RepeatedLabelLoses | semantic_matcher.py:34-51 | detections with the same label score the same, and the later one is never the first maximum |
| SemanticMatcher.TermSumPermutation | semantic_matcher.py:46-50 | the column sum is the same for any permutation of the keywords |
| SemanticMatcher.KeywordOrderFree | semantic_matcher.py:42-61 | permuting the keywords does not change the match |
| SemanticMatcher.VocabularyOrderFree | semantic_matcher.py:13-61 | the set's iteration order does not change the match |
| SemanticMatcher.TermSumBounds | semantic_matcher.py:46-50 | similarities within [lo, hi] give a column sum within n*lo and n*hi |
| SemanticMatcher.MeanScoreBounds | semantic_matcher.py:50 | a mean score lies within the range of its similarities, so within [-1, 1] for cosine similarity |
| MatcherExamples.NoSubwordMatch | semantic_matcher.py:15-16 | "car" is not extracted from "Red CARS" |
| MatcherExamples.WholeWordMatch | semantic_matcher.py:15-16 | "the Car  door" yields "car" despite the capital and the double space |
| MatcherExamples.HeadlightKeywords | semantic_matcher.py:13-18 | "show me the headlight" against headlight, bumper and mirror yields just "headlight" |
| MatcherExamples.HeadlightScenario | semantic_matcher.py:20-61 | when a word is more similar to itself than to "car", the headlight detection beats the car |
| MatcherExamples.BicycleScenario | semantic_matcher.py:37-59 | a keyword-free prompt and a bicycle unlike both fallback terms give None |
| MatcherExamples.FallbackFindsCar | semantic_matcher.py:37-61 | a keyword-free prompt still finds a car through the fallback terms |
| Utils.LoadVehicleParts | utils.py:15-29 | a failed load gives the empty set; otherwise the loop's set is the lower-cased parts of all categories |
| Utils.AllPartsMembers | utils.py:19-23 | a term is in the vocabulary iff it is the lower-cased form of some part of some category |
| Utils.VocabularyLowerCase | utils.py:23 | every vocabulary term is lower case |
| Utils.CategoryOrderFree | utils.py:21 | any permutation of the categories gives the same vocabulary |
| Utils.PartOrderFree | utils.py:22 | the order of the parts in a category does not change the vocabulary |
| Utils.DuplicatesCollapse | utils.py:20-23 | repeats across categories and letter cases give one member each |
| Pipeline.DrawOps | logic/pipeline.py:19-25 | two drawing calls per detection |
| Pipeline.DrawOpsAt | logic/pipeline.py:19-25 | detection i gets a width-3 rectangle on its box, then its label at (x1, y1-25), blue iff the label is "car" and green otherwise |
| Pipeline.Canvas.Rectangle | logic/pipeline.py:23 | appends exactly the rectangle call to the image's drawing calls |
| Pipeline.Canvas.WriteText | logic/pipeline.py:25 | appends exactly the text call to the image's drawing calls |
| Pipeline.DrawDetections | logic/pipeline.py:11-27 | draws in place on the given image and returns it; the calls added are those of every detection, in order, with the font chosen by whether Arial loads |
| Pipeline.RunPipeline | logic/pipeline.py:29-90 | a result is either exactly one "error" key with one of the pipeline's messages, or exactly the four success keys |
| Pipeline.DecodeFailure | logic/pipeline.py:33-34 | undecodable bytes give the internal error, whatever the detector, the service and the captioner do |
| Pipeline.NoObjects | logic/pipeline.py:37-39 | no detections gives exactly the "no objects" error, whatever the service, the crop and the captioner do |
| Pipeline.MatchServiceFailed | logic/pipeline.py:58-59 | a status other than 200 gives exactly "Match API failed: <status>", whatever the crop and the captioner do |
| Pipeline.NoConfidentMatch | logic/pipeline.py:65-69 | a falsy body gives exactly the "no confident match" error, whatever the crop and the captioner do |
| Pipeline.UnusableMatchResponse | logic/pipeline.py:53-72 | a call that raises, a body that is not JSON, or a body without a box or label gives the internal error |
| Pipeline.CropOrCaptionFailure | logic/pipeline.py:72-75 | a crop or caption that raises gives the internal error |
| Pipeline.SuccessPath | logic/pipeline.py:72-86 | when every stage succeeds, the result holds the service's label, the crop's caption and the two encodings |
| Pipeline.OnlySuccessPath | logic/pipeline.py:33-90 | a result without "error" means every stage succeeded; it holds the service's label and the crop's caption |
| Pipeline.MatchedLabelNotFromDetections | logic/pipeline.py:47-63 | the remote service can name a label that no detection has |
| Pipeline.LocalMatchNamesDetection | logic/pipeline.py:49 | with `find_best_match` as the service, a successful result names some detection's label |
| Pipeline.HttpStatus | main.py:57-58 | a result gets 404 exactly when it has an "error" key, and 200 exactly when it has none |
| Pipeline.ErrorsAreNotFound | main.py:57-58 | a pipeline result gets 404 exactly when it is an error result, whose only key is "error" |
| TestApi.LastIndexOf | test_api.py:12 | the index is -1 or a position of the character |
| TestApi.LastIndexOfIsLast | test_api.py:12 | no occurrence follows that index |
| TestApi.Extension | test_api.py:12 | `os.path.splitext(p)[1]` is a suffix of the path, empty or starting with '.' |
| TestApi.ExtensionShape | test_api.py:12 | the extension is empty or a '.' followed by characters that are neither '.' nor '/' |
| TestApi.ExtensionOfSuffix | test_api.py:12 | a named file plus an extension has that extension, whatever dots come before |
| TestApi.ContentTypeFor | test_api.py:13-21 | jpeg iff ".jpg" or ".jpeg"; png iff ".png"; bmp iff ".bmp"; the generic type iff none of them |
| TestApi.GetContentType | test_api.py:10-21 | the result is always one of the four types |
| TestApi.ContentTypeByExtension | test_api.py:12-21 | the type of a named file with an extension is the type of the lower-cased extension |
| TestApi.NoDotIsGeneric | test_api.py:20-21 | a path without '.' has no extension and gets the generic type |
| TestApi.CaseInsensitive | test_api.py:12 | paths equal up to letter case get the same type |
| TestApi.ExtensionOfLower | test_api.py:12 | lower-casing commutes with taking the extension |
| TestApi.DoubleExtension | test_api.py:12-14 | "<stem>.png.jpg" is a JPEG |
| TestApi.UpperCaseInDirectory | test_api.py:12-14 | "<dir>/CAR.JPEG" is a JPEG whatever the directory holds |
| TestApi.MixedCase | test_api.py:12-18 | a named file ending ".Bmp" is a bitmap |
| TestApi.HiddenFile | test_api.py:12-21 | ".png" has no extension and gets the generic type |
| TestApi.DotInDirectory | test_api.py:12-21 | a dot in a directory name is not an extension |

## Left out

- The sentence-embedding model and `util.cos_sim` are not modelled. The similarity of two words is the parameter `sim`.
- SemanticMatcher.FindBestMatch: uses exact real arithmetic, without float32 rounding or NaN. A NaN score, which compares false against everything, is not modelled.
- Object detection (object_detector.py) and captioning (caption_generator.py) are not part of this model. Their results are collaborator fields.
- The model registry models/loader.py is not part of this model.
- The network call to the match service is not modelled. Only its outcome is: raised, a status, and the body parsed or not.
- Pipeline.RunPipeline: painting the detections and the JPEG and base64 encodings are total collaborators. An exception raised inside them is not modelled.
- Pipeline.RunPipeline: labels are strings; a non-string label, which the source returns as matched_object, is not modelled.
- Pipeline.RunPipeline: the matched entry is reduced to an optional box and an optional label, `None` when the key is missing. The shapes of JSON that `image.crop` would reject are folded into a missing box.
- Utils.LoadVehicleParts: opening the file and `json.load` are not modelled. The parsed document is given as its lists of parts, or `None` for any failure. A category given as a bare string, which Python iterates by character, is not modelled.
- Text.Lower: lower-cases ASCII letters only. Python lower-cases all of Unicode; that is exact for the four extensions but not for arbitrary prompts.
- TestApi.GetContentType: uses the POSIX form of `os.path.splitext`. The Windows form, which also splits on '\\' and drive letters, is not modelled.
- The vocabulary set is given as a sequence in its iteration order. Python's hash order is not modelled; VocabularyOrderFree shows the order does not matter for the match.
- All `print` calls are left out; they only log.
- `test_endpoint`, argument parsing and the FastAPI routing in main.py are left out. From main.py only the rule status 404 for an "error" result is modelled.
