# EcoMove core in Dafny

EcoMove is a recycling helper. A phone photo goes to a detector that returns
labelled boxes. The app then does four things:

- it resolves each detected item to a waste category (recyclable,
  compostable, trash, drop-off) using per-state rules shipped in
  `trash.json`;
- it shows a summary of the labels and category tiles;
- it appends the capture to a local log, which can be cleared together with
  the captured images;
- it lists recycling facilities on cards with directions and share text.

A small Flask backend stores community posts and serves the detector's query
parameters.

This project models that core as Dafny modules:

| module | file | what it models |
|---|---|---|
| `Optional` | `optional.dfy` | `Option` |
| `Text` | `text.dfy` | JavaScript `trim` and Python `strip` (each with its own whitespace set), ASCII case mapping, the UTF-16 length of a string, prefix and suffix tests |
| `Sorting` | `sorting.dfy` | a stable sort by a comparator (both `Array.prototype.sort` and Python `sorted` are stable), and the code-point string order: the order of Python `sorted`, and of JavaScript `sort()` on strings inside the Basic Multilingual Plane |
| `TrashMap` | `trash_map.dfy` | `trash_map.tsx`: `toKey`, the state-name and abbreviation tables, the status-to-category map, building `STATE_TABLE` from the rules, `getCategoryForState`, `isSupportedState` and `listSupportedStates` |
| `Detections` | `detections.dfy` | counting boxes by label (a `Map` in insertion order) and tallying categories, which both the capture screen and the log do |
| `CaptureScreen` | `capture.dfy` | `capture.tsx`: `soft` (hex colour parsing with `parseInt(…, 16)`), the per-box categories, the label summary sorted by count, the category counts and the tiles in category order |
| `CaptureLogs` | `capture_logs.dfy` | `capture_logs.tsx`: the storage mode and log path, the shape of a log entry (including the `...extra` spread), and a `CaptureStore` class whose methods append to the log, clear it and delete captured images |
| `PostsApi` | `api.dfy` | `api.py`: `save_image`, `create_post` (form reading, missing-field check, id counter, host prefix), `get_post`, `list_posts`, and the `lw`, `labels`, `conf`, `format` and `quality` query parameters of the detector endpoint |
| `FacilityCard` | `facility_card.dfy` | `facilitycard.tsx`: `mapsUrl`, the colour of a category and the share text |

The stores are classes whose methods update fields:
- The post database is `PostsApi.PostStore`. Its fields are the posts, `next_id` and the saved uploads.
- The capture log is `CaptureLogs.CaptureStore`. Its fields are the entries, whether a log is stored, and the set of files on the device.

Code that only computes a value is modelled with functions and lemmas.

## Model

| member | source | states |
|---|---|---|
| `Text.Strip` | EcoMoveUI/components/trash_map.tsx:13 | The trimmed string is no longer than the input and neither begins nor ends with whitespace. |
| `Text.StripSlice` | EcoMoveUI/components/trash_map.tsx:13 | Trimming only cuts whitespace from the two ends: the result is a contiguous slice of the input, and everything cut off is whitespace. |
| `Text.StripFixpoint` | EcoMoveBackend/api.py:226-229 | `strip()` leaves a string unchanged exactly when it is empty or has no whitespace at either end. |
| `Text.StripIdempotent` | EcoMoveBackend/api.py:226-229 | Stripping twice gives the same as stripping once. |
| `Text.LowerNormalises` | EcoMoveUI/components/trash_map.tsx:13 | Lower-casing leaves no upper-case letter, and it changes exactly the strings that contain one. |
| `Text.Lower` | EcoMoveUI/components/trash_map.tsx:13 | Definition of `toLowerCase()` on ASCII letters (no contract of its own). Its properties are proved in `Text.LowerNormalises`. |
| `Text.Upper` | EcoMoveUI/components/trash_map.tsx:142 | Definition of `toUpperCase()` on ASCII letters (no contract of its own). It is used for the abbreviation lookup proved in `TrashMap.AbbreviationOrName`. |
| `Text.Utf16Length` | EcoMoveUI/components/trash_map.tsx:158 | JavaScript's `length`: at least the number of code points and at most twice that, and equal to it when every character is inside the Basic Multilingual Plane. |
| `Sorting.SortBy` | EcoMoveUI/app/capture.tsx:111 | Sorting returns a permutation of its input (same multiset). |
| `Sorting.SortBySorted` | EcoMoveUI/app/capture.tsx:111 | For any strict weak order, the sorted list has no element strictly before an earlier one. |
| `Sorting.SortByStable` | EcoMoveUI/app/capture.tsx:111 | The sort is stable: for every value, the elements tied with it come out in their input order. |
| `Sorting.StrLessIrreflexive` | EcoMoveUI/components/trash_map.tsx:165 | The code-point order used for `sort()` never puts a string before itself. |
| `Sorting.StrLessTransitive` | EcoMoveUI/components/trash_map.tsx:165 | The code-point order is transitive. |
| `Sorting.StrLessTotal` | EcoMoveUI/components/trash_map.tsx:165 | Of two different strings, one comes before the other. |
| `Sorting.StrKeyOrder` | EcoMoveBackend/api.py:211 | Ordering by a string key, ascending or descending, is a strict weak order whose ties are exactly the equal keys. |
| `Sorting.IntKeyOrder` | EcoMoveUI/app/capture.tsx:111 | The comparator `b[1] - a[1]` (larger count first) is a strict weak order whose ties are exactly the equal counts. |
| `Sorting.SortedStrictly` | EcoMoveUI/components/trash_map.tsx:160-165 | A sorted list without duplicates is strictly increasing. |
| `Detections.Bump` | EcoMoveUI/components/capture_logs.tsx:76 | `map.set(label, (map.get(label) \|\| 0) + 1)`: a known label keeps its place and a new one goes last; that label's count rises by one, the others are unchanged, and the total rises by one. |
| `Detections.DistinctSpec` | EcoMoveUI/components/capture_logs.tsx:74-76 | The map's keys are exactly the labels seen, without repeats, in order of first appearance. |
| `Detections.CountLabelsSpec` | EcoMoveUI/components/capture_logs.tsx:74-76 | Counting by label yields the distinct labels in first-seen order, each with its number of occurrences, and the counts add up to the number of labels. |
| `Detections.CountLabels` | EcoMoveUI/components/capture_logs.tsx:74-76 | Definition of the counts after the loop (no contract of its own). Its properties are proved in `Detections.CountLabelsSpec` and `Detections.DistinctSpec`. |
| `Detections.TallyOf` | EcoMoveUI/app/capture.tsx:114-123 | Definition of the counters after the loop (no contract of its own). Its properties are proved in `Detections.TallyOfCounts`. |
| `Detections.CountByLabel` | EcoMoveUI/components/capture_logs.tsx:74-76 | The loop builds the label counts: keys in first-seen order, each count the label's multiplicity, the sum equal to the number of boxes. |
| `Detections.Tally.Add` | EcoMoveUI/app/capture.tsx:121 | `counts[c] += 1` raises that category's counter by one and leaves the other counters alone. |
| `Detections.TallyOfCounts` | EcoMoveUI/app/capture.tsx:114-123 | Each category's counter is the number of boxes resolved to it, and the counters add up to the boxes that have a category. |
| `Detections.CountCategories` | EcoMoveUI/app/capture.tsx:114-123 | The counting loop yields those counters: one per category, equal to its occurrences, with undefined categories skipped. |
| `CaptureScreen.HexRun` | EcoMoveUI/app/capture.tsx:33-35 | `parseInt(…, 16)` reads the longest prefix of hexadecimal digits and stops at the first non-digit. |
| `CaptureScreen.TwoDigits` | EcoMoveUI/app/capture.tsx:33-35 | Two hex digits parse to their byte value, at most 255. |
| `CaptureScreen.SoftOfHexColor` | EcoMoveUI/app/capture.tsx:32-37 | For a `#rrggbb` colour, the three channels of `soft` are the three byte values. |
| `CaptureScreen.SoftRoundTrip` | EcoMoveUI/app/capture.tsx:32-37 | Writing any RGB triple as `#rrggbb` and passing it to `soft` gives back the same channels. |
| `CaptureScreen.SoftSigned` | EcoMoveUI/app/capture.tsx:33 | `parseInt` accepts a sign: a colour with `-` after `#` yields a negative red channel. |
| `CaptureScreen.SoftNotANumber` | EcoMoveUI/app/capture.tsx:33 | A red slice that starts with no digit, space or sign parses to NaN (no value). |
| `CaptureScreen.ParseHex` | EcoMoveUI/app/capture.tsx:33-35 | Definition of `parseInt(…, 16)` (no contract of its own): leading space, a sign, an optional `0x`, then the longest run of hex digits, with no digit meaning `NaN`. Its properties are proved in `CaptureScreen.HexRun`, `CaptureScreen.TwoDigits`, `CaptureScreen.SoftSigned` and `CaptureScreen.SoftNotANumber`. |
| `CaptureScreen.Soft` | EcoMoveUI/app/capture.tsx:32-37 | Definition (no contract of its own): the channels parsed from `slice(1,3)`, `slice(3,5)` and `slice(5,7)`. Its properties are proved in `CaptureScreen.SoftOfHexColor` and `CaptureScreen.SoftRoundTrip`. |
| `CaptureScreen.LookupKey` | EcoMoveUI/app/capture.tsx:55 | Definition of `b.label \|\| b.class_id` (no contract of its own): an empty label falls back to the class id. `CaptureScreen.Cats` states the resulting lookup. |
| `CaptureScreen.Summary` | EcoMoveUI/app/capture.tsx:108-112 | The summary holds each distinct label once, with its number of boxes, in non-increasing order of count. Labels with the same count keep first-seen order. The counts add up to the number of boxes. |
| `CaptureScreen.Cats` | EcoMoveUI/app/capture.tsx:53-58 | One category per box, index for index: looked up by label when the label is non-empty, otherwise by class id. |
| `CaptureScreen.Tiles` | EcoMoveUI/app/capture.tsx:200-202 | A category has a tile exactly when its count is nonzero, each tile shows its category's count, and tiles follow the order recyclable, compostable, trash, drop-off. |
| `CaptureLogs.Platform.LogPath` | EcoMoveUI/components/capture_logs.tsx:18-20 | The log path always ends in `captures.json`. |
| `CaptureLogs.Platform.CaptureLogPath` | EcoMoveUI/components/capture_logs.tsx:22 | The exported path is null exactly in key-value storage mode (web, or no document directory), and otherwise is the log path. |
| `CaptureLogs.Platform.UseAsync` | EcoMoveUI/components/capture_logs.tsx:16 | Definition of `USE_ASYNC` (no contract of its own): web, or no usable document directory. Its consequences are proved in `CaptureLogs.Platform.CaptureLogPath` and `CaptureLogs.DeletableOnlyLocal`. |
| `CaptureLogs.EntryOf` | EcoMoveUI/components/capture_logs.tsx:97-104 | Definition of the logged entry (no contract of its own). Its properties are proved in `CaptureLogs.EntryOverrides`, `CaptureLogs.CategoryTotals` and `CaptureLogs.BoxCategory`. |
| `CaptureLogs.IsDeletableLocalFile` | EcoMoveUI/components/capture_logs.tsx:126-135 | Definition of `isDeletableLocalFile` (no contract of its own). Its properties are proved in `CaptureLogs.DeletableOnlyLocal` and `CaptureLogs.NoCacheDirectoryMatchesAnyFile`. |
| `CaptureLogs.Put` | EcoMoveUI/components/capture_logs.tsx:97-104 | Assigning an object property whose key is not integer-like: the key now holds the value, other keys are unchanged, an existing key keeps its place and a new key goes last. |
| `CaptureLogs.SpreadOverrides` | EcoMoveUI/components/capture_logs.tsx:103 | After `...extra`, a key present in `extra` holds extra's last value for it; every other key keeps the base value. |
| `CaptureLogs.SpreadNames` | EcoMoveUI/components/capture_logs.tsx:103 | For keys that are not integer-like, the spread keeps the base keys in place and appends extra's new keys in their order. |
| `CaptureLogs.BoxCategory` | EcoMoveUI/components/capture_logs.tsx:85 | A box's logged category is its by-label category when there is one, and otherwise its by-class-id category. |
| `CaptureLogs.LogMatchesScreen` | EcoMoveUI/components/capture_logs.tsx:85 | Per box, against the screen's `b.label \|\| b.class_id` lookup (capture.tsx:55): the log agrees when a non-empty label resolves, and when the label is empty and the empty name does not resolve. A non-empty label that does not resolve gets no category on the screen but the class id's category in the log. |
| `CaptureLogs.LogCatsVersusScreen` | EcoMoveUI/components/capture_logs.tsx:78-87 | Index by index over the boxes, the logged categories differ from the screen's `cats` (capture.tsx:53-58) exactly when a non-empty label does not resolve while the class id does, or when the empty label resolves to a category other than the class id's. |
| `CaptureLogs.CategoryTotals` | EcoMoveUI/components/capture_logs.tsx:78-87 | Each logged category total is the number of boxes resolved to that category, and the totals add up to at most the number of boxes. |
| `CaptureLogs.EntryOverrides` | EcoMoveUI/components/capture_logs.tsx:97-104 | In the logged entry, keys from `extra` override the computed fields and all other fields are the computed ones. When no key of `extra` is integer-like, the computed keys come first, then extra's new keys. |
| `CaptureLogs.CandidateUris` | EcoMoveUI/components/capture_logs.tsx:118-124 | The candidates are exactly the non-empty string `sourceUri` values of the logged entries, at most one per entry. |
| `CaptureLogs.DeletableOnlyLocal` | EcoMoveUI/components/capture_logs.tsx:126-135 | Nothing is deletable in key-value mode; in file mode only `file://` URIs under the document or cache directory are. |
| `CaptureLogs.NoCacheDirectoryMatchesAnyFile` | EcoMoveUI/components/capture_logs.tsx:130-133 | With no cache directory the prefix is empty, so every `file://` URI counts as deletable. |
| `CaptureLogs.DeletableAmongMembers` | EcoMoveUI/components/capture_logs.tsx:137-140 | The URIs the deletion loop acts on are exactly the candidates that pass the deletable test. |
| `CaptureLogs.CaptureStore.constructor` | EcoMoveUI/components/capture_logs.tsx:32-36 | A fresh store has an empty log, no stored log and the given files. |
| `CaptureLogs.CaptureStore.Append` | EcoMoveUI/components/capture_logs.tsx:106-109 | Appending stores the entry built from the boxes at the end of the log and returns it; files are untouched. |
| `CaptureLogs.CaptureStore.Clear` | EcoMoveUI/components/capture_logs.tsx:59-65 | Clearing leaves an empty stored log and the files as they were. |
| `CaptureLogs.CaptureStore.DeleteOne` | EcoMoveUI/components/capture_logs.tsx:140-146 | One URI is removed, and counted, exactly when it is deletable and exists; the log is untouched. |
| `CaptureLogs.CaptureStore.DeleteImages` | EcoMoveUI/components/capture_logs.tsx:137-149 | The deletable candidates are removed from the files. The count is how many of them existed, which is at most the number of candidates. The log is untouched. |
| `CaptureLogs.CaptureStore.ClearAll` | EcoMoveUI/components/capture_logs.tsx:112-174 | The log ends empty. It stays stored unless `removeLogFile` is set. Images are deleted only when requested and not in key-value mode. The result reports success, the number of images that existed and were deleted, the storage mode and the exported log path. |
| `CaptureLogs.CaptureStore.ClearAllDefaults` | EcoMoveUI/components/capture_logs.tsx:112-116 | Called without options, `clearAllCapturedData` deletes the images (`deleteImages = true`) and keeps the log stored but empty (`removeLogFile = false`). |
| `PostsApi.SplitAtLastDot` | EcoMoveBackend/api.py:47 | A file name with a dot is its stem, the last dot and an extension without dots; a name without a dot has an empty extension. |
| `PostsApi.SaveImageSpec` | EcoMoveBackend/api.py:44-54 | No file or an empty name saves nothing. An extension not on the allowed list is refused. Otherwise the URL starts with `/uploads/` and ends with the lower-cased allowed extension. |
| `PostsApi.NonEmpty` | EcoMoveBackend/api.py:237 | `… or None`: the empty string becomes `None` and any other string stays as it is. |
| `PostsApi.MissingFieldsSpec` | EcoMoveBackend/api.py:239-241 | A field is reported missing exactly when it is empty, only the four field names appear, each at most once, and no field is missing exactly when all four are filled. |
| `PostsApi.MissingFieldsOrdered` | EcoMoveBackend/api.py:239 | Missing fields are listed in the order title, description, location, phone. |
| `PostsApi.HostPrefix` | EcoMoveBackend/api.py:260 | `rstrip("/")` leaves no trailing slash. |
| `PostsApi.ResponseCopy` | EcoMoveBackend/api.py:259-260 | The response differs from the stored post only in the photo URL. A URL starting with `/` gets the host in front; anything else is returned unchanged. |
| `PostsApi.CreateCases` | EcoMoveBackend/api.py:243-262 | A create either is refused with a 400 and stores nothing, or stores exactly one post. That post takes the counter, holds the stripped fields and the time, has a photo exactly when one was saved, and is what the response shows. |
| `PostsApi.CreateRefusals` | EcoMoveBackend/api.py:239-241 | An unsupported image is refused before anything is saved. A missing-field refusal names exactly the empty fields, yet keeps the already saved upload. |
| `PostsApi.SavedOnlyUploads` | EcoMoveBackend/api.py:224-230 | At most one file is written: the `photo` of a multipart request, with an allowed extension, and its URL is the recorded photo. |
| `PostsApi.PostStore.constructor` | EcoMoveBackend/api.py:28-31 | A new database has `next_id` 1 and no posts. |
| `PostsApi.PostStore.CreatePost` | EcoMoveBackend/api.py:222-262 | Creating a post from a request appends the created post (if any), records the saved upload, advances `next_id` by the number of posts created and keeps ids increasing and below `next_id`. |
| `PostsApi.PostStore.Submit` | EcoMoveBackend/api.py:239-262 | The same for an already-read form. |
| `PostsApi.PostStore.GetPost` | EcoMoveBackend/api.py:214-220 | The first post with the id is returned, and 404 exactly when no post has it. |
| `PostsApi.AppendKeepsIds` | EcoMoveBackend/api.py:243-256 | Taking `next_id` for the new post and incrementing it keeps ids unique and increasing; the new id is used by no earlier post. |
| `PostsApi.LookupSpec` | EcoMoveBackend/api.py:217-220 | Lookup finds a post exactly when one has the id, and what it finds is stored and has that id. |
| `PostsApi.CreatedPostIsFound` | EcoMoveBackend/api.py:243-256 | After a create, the new id finds the new post and every other id finds what it found before. |
| `PostsApi.ListPosts` | EcoMoveBackend/api.py:208-212 | The listing is a permutation of the posts, newest `created_at` first, and posts with equal timestamps keep their stored order. |
| `PostsApi.ParseShow` | EcoMoveBackend/api.py:171 | `int(str(n)) == n` for every integer of at most 4300 digits (the default digit limit of `int` on a string): its decimal form parses back to itself. |
| `PostsApi.Clamp` | EcoMoveBackend/api.py:183 | `max(1, min(100, n))` is within 1..100, keeps values already in range and sends others to the nearer bound. |
| `PostsApi.Defaults` | EcoMoveBackend/api.py:182-183 | The defaults `"jpeg"` and `"90"` read as the JPEG format and 90. |
| `PostsApi.JpegQuality` | EcoMoveBackend/api.py:182-183 | A quality exists only for `jpg`/`jpeg`, case-insensitive and `jpeg` by default. It lies in 1..100 and defaults to 90. A value `int` reads is clamped: it is kept when in range and otherwise becomes the nearer bound. A value `int` rejects fails the request. |
| `PostsApi.Flag` | EcoMoveBackend/api.py:173-174 | `labels` and `conf` are off exactly for the literal `"0"`. |
| `PostsApi.LineWidth` | EcoMoveBackend/api.py:169-172 | An absent or empty `lw` means the default width. Otherwise the width is what `int` reads (see `PostsApi.ParseInt`), and nothing when `int` raises. |
| `PostsApi.SaveImage` | EcoMoveBackend/api.py:44-54 | Definition of `save_image` (no contract of its own): no file or an empty name gives no image, an extension off the allow-list is a 400, otherwise `/uploads/<secure stem>-<token>.<ext>`. Its properties are proved in `PostsApi.SaveImageSpec`. |
| `PostsApi.PhotoOf` | EcoMoveBackend/api.py:230-237 | Definition (no contract of its own): a multipart request with a `photo` file saves it, otherwise the stripped `photo_url` is used and empty means none. Its properties are proved in `PostsApi.SavedOnlyUploads` and `PostsApi.NonEmpty`. |
| `PostsApi.ReadForm` | EcoMoveBackend/api.py:224-237 | Definition (no contract of its own): the four stripped fields from the form or the JSON body, absent meaning empty, plus the photo. Its properties are proved in `PostsApi.SavedOnlyUploads` and `PostsApi.CreateCases`. |
| `PostsApi.Create` | EcoMoveBackend/api.py:222-262 | Definition (no contract of its own): unsupported image first, then missing fields, otherwise one post with the counter. Its properties are proved in `PostsApi.CreateCases` and `PostsApi.CreateRefusals`. |
| `PostsApi.Lookup` | EcoMoveBackend/api.py:214-220 | Definition (no contract of its own): the first post with the id. Its properties are proved in `PostsApi.LookupSpec`. |
| `PostsApi.ParseInt` | EcoMoveBackend/api.py:183 | Definition of `int` on a string (no contract of its own): surrounding padding as `int` skips it (white space except the separators U+001C–U+001F, see `PostsApi.SeparatorNotPadding`), an optional sign, then Unicode decimal digits with single underscores between them and at most 4300 digits. Anything else raises. Its properties are proved in `PostsApi.ParseShow` and `PostsApi.ParseOtherScripts`. |
| `PostsApi.DigitZero` | EcoMoveBackend/api.py:183 | A digit of `int` lies in a Unicode 15.0 block of ten decimal digits whose zero is at most nine below it, so its digit value is 0..9. The ASCII digits are exactly the characters whose block starts at `0`. |
| `PostsApi.SeparatorNotPadding` | EcoMoveBackend/api.py:183 | `str.strip` removes a leading U+001C, but `int` does not skip it, so `int("\x1c90")` fails and the request with that quality fails. |
| `PostsApi.OtherPaddingSkipped` | EcoMoveBackend/api.py:183 | `int` skips a leading no-break space and a trailing line feed: `"\xa090\n"` reads as 90. |
| `PostsApi.ParseOtherScripts` | EcoMoveBackend/api.py:183 | `int` reads digits of other scripts: full-width `９０` and Arabic-Indic `٩٠` both read as 90. |
| `FacilityCard.MapsUrl` | EcoMoveUI/components/facilitycard.tsx:35-51 | No query gives Google Maps. Two numeric coordinates give a lat,lon link for the platform. Otherwise a non-empty address gives an encoded search link, and anything else gives Google Maps. |
| `FacilityCard.CoordinatesIgnoreAddress` | EcoMoveUI/components/facilitycard.tsx:37-42 | With coordinates present, the address has no effect on the link. |
| `FacilityCard.HomeOnlyWithoutTarget` | EcoMoveUI/components/facilitycard.tsx:35-51 | The link is the Google Maps home page exactly when there is neither a coordinate pair nor an address. Otherwise it is an Apple Maps link on iOS and a Google search link elsewhere. |
| `FacilityCard.ColorFor` | EcoMoveUI/components/facilitycard.tsx:61-65 | A known category gets its palette; a missing or unknown one gets the default palette. |
| `FacilityCard.Line` | EcoMoveUI/components/facilitycard.tsx:71-72 | An optional line is empty exactly when its value is missing or empty; otherwise it is the prefix, the value and a newline. |
| `FacilityCard.DistanceLine` | EcoMoveUI/components/facilitycard.tsx:70 | The distance line is empty exactly when the distance is missing or falsy, and otherwise is the one-decimal distance followed by ` mi away`. |
| `FacilityCard.ShareText` | EcoMoveUI/components/facilitycard.tsx:68-73 | The share text is the name line, the address line, the optional lines and the directions URL, in that order and nothing else. |
| `FacilityCard.ShareTextWithoutOptionals` | EcoMoveUI/components/facilitycard.tsx:68-73 | With no distance, hours, phone or accepts, the share text is name, address and URL. |
| `FacilityCard.PhoneLineOrder` | EcoMoveUI/components/facilitycard.tsx:71-72 | The phone line comes right after the distance and hours lines, and the accepts line comes last. |
| `TrashMap.ToKey` | EcoMoveUI/components/trash_map.tsx:13 | A key has no upper-case letter, no whitespace at either end, and is no longer than its input. |
| `TrashMap.ToKeyFixpoint` | EcoMoveUI/components/trash_map.tsx:13 | `toKey` leaves a string unchanged exactly when it already is a key. |
| `TrashMap.ToKeyIdempotent` | EcoMoveUI/components/trash_map.tsx:13 | `toKey(toKey(s)) == toKey(s)`. |
| `TrashMap.StatusToCategory` | EcoMoveUI/components/trash_map.tsx:77-84 | `Recyclable`, `Compost` and `Special handling` map to recyclable, compostable and drop-off, and every other status maps to trash. |
| `TrashMap.StatusRoundTrip` | EcoMoveUI/components/trash_map.tsx:77-84 | Every category is reached, each from its own status. |
| `TrashMap.NameToAbbrInverts` | EcoMoveUI/components/trash_map.tsx:67-75 | Inverting the table maps a state's abbreviation back to that state's name. |
| `TrashMap.NameOfAbbrInverts` | EcoMoveUI/components/trash_map.tsx:67-75 | Every inverted entry comes from the forward table. |
| `TrashMap.NameAbbrInverse` | EcoMoveUI/components/trash_map.tsx:67-75 | The name table and its inversion are the same relation (no two states share an abbreviation). |
| `TrashMap.AbbrShape` | EcoMoveUI/components/trash_map.tsx:15-66 | Every abbreviation is two upper-case letters. |
| `TrashMap.NamePlain` | EcoMoveUI/components/trash_map.tsx:15-66 | Every state name is longer than two characters, made of lower-case letters and spaces, with no space at either end (so no name is mistaken for an abbreviation key). |
| `TrashMap.TitleCaseKey` | EcoMoveUI/components/trash_map.tsx:71-73 | Title-casing a plain name and applying `toKey` gives the name back. |
| `TrashMap.AbbrToNameKey` | EcoMoveUI/components/trash_map.tsx:67-75 | The display name of an abbreviation normalises to the table's name for it. |
| `TrashMap.Index` | EcoMoveUI/components/trash_map.tsx:93-97 | The per-state index has exactly the keys of the items. |
| `TrashMap.IndexLastWins` | EcoMoveUI/components/trash_map.tsx:93-97 | When items share a key, the last one's category is the one kept. |
| `TrashMap.KeysOf` | EcoMoveUI/components/trash_map.tsx:98-101 | A rules entry is always registered under its normalised state name. |
| `TrashMap.RegisterUnder` | EcoMoveUI/components/trash_map.tsx:99-101 | Registering adds the entry's keys, which now hold its table; every other key keeps its table. |
| `TrashMap.RegisterEntry` | EcoMoveUI/components/trash_map.tsx:98-101 | A rules entry goes under its full key, and under its lower-cased abbreviation when the name is in the table. |
| `TrashMap.BuildDomain` | EcoMoveUI/components/trash_map.tsx:90-102 | The state table's keys are exactly the keys of the rules entries. |
| `TrashMap.BuildLastWins` | EcoMoveUI/components/trash_map.tsx:90-102 | A key holds the table of the last rules entry registered under it. |
| `TrashMap.BuildRegionTable` | EcoMoveUI/components/trash_map.tsx:91-97 | The inner loop builds the by-id and by-name indexes of an entry's items. |
| `TrashMap.BuildStateTable` | EcoMoveUI/components/trash_map.tsx:86-102 | The outer loop builds the whole state table as specified by the build function. |
| `TrashMap.IsSupportedState` | EcoMoveUI/components/trash_map.tsx:150-153 | A state is supported exactly when the lookup through the abbreviation table or the lower-cased hint finds a table. |
| `TrashMap.GetCategoryForState` | EcoMoveUI/components/trash_map.tsx:137-149 | An empty or unsupported state gives no category. A category returned for an id or a name is the one found state's table holds for it. |
| `TrashMap.ItemNameNormalised` | EcoMoveUI/components/trash_map.tsx:148 | Item names that normalise alike get the same category. |
| `TrashMap.AbbreviationOrName` | EcoMoveUI/components/trash_map.tsx:142-143 | An abbreviation in any case and its state name in any case and padding find the same table and give the same answers. |
| `TrashMap.FindsBuiltTable` | EcoMoveUI/components/trash_map.tsx:142-144 | A state hint finds the table of the last rules entry registered under its key. |
| `TrashMap.ClassifiesById` | EcoMoveUI/components/trash_map.tsx:145-146 | A numeric item gets the category of the last item with that id in the state's rules. |
| `TrashMap.NameIndexLastWins` | EcoMoveUI/components/trash_map.tsx:96 | The by-name index holds the category of the last item with that normalised name. |
| `TrashMap.LookupByName` | EcoMoveUI/components/trash_map.tsx:148 | A name present in the found table gets that table's category for it. |
| `TrashMap.ClassifiesByName` | EcoMoveUI/components/trash_map.tsx:148 | A named item gets the category of the last item with the same normalised name in the state's rules. |
| `TrashMap.ProperOfKnownName` | EcoMoveUI/components/trash_map.tsx:159 | A known state name is displayed title-cased. |
| `TrashMap.ListSupportedStates` | EcoMoveUI/components/trash_map.tsx:154-166 | The list holds exactly the display names of the table's keys whose UTF-16 `length` is not 2. Each appears once, and the list is in ascending code-point order. |
| `TrashMap.KnownStatesListed` | EcoMoveUI/components/trash_map.tsx:154-166 | Every known state in the table is listed under its title-cased name. |
| `TrashMap.NameToAbbr` | EcoMoveUI/components/trash_map.tsx:15-66 | The `NAME_TO_ABBR` table (no contract of its own). Its properties are proved in `TrashMap.AbbrShape`, `TrashMap.NamePlain` and `TrashMap.NameAbbrInverse`. |
| `TrashMap.NameOfAbbr` | EcoMoveUI/components/trash_map.tsx:67-75 | The inversion of `NAME_TO_ABBR` (no contract of its own). Its properties are proved in `TrashMap.NameToAbbrInverts`, `TrashMap.NameOfAbbrInverts` and `TrashMap.NameAbbrInverse`. |
| `TrashMap.TitleCase` | EcoMoveUI/components/trash_map.tsx:71-73 | Title-casing keeps the length. `TrashMap.TitleCaseKey` proves that it undoes on a plain name what `toKey` does. |
| `TrashMap.AbbrToName` | EcoMoveUI/components/trash_map.tsx:67-75 | `ABBR_TO_NAME` (no contract of its own). Its properties are proved in `TrashMap.AbbrToNameKey`. |
| `TrashMap.ResolveKey` | EcoMoveUI/components/trash_map.tsx:142 | Definition of `toKey(ABBR_TO_NAME[state.toUpperCase()] ?? state)` (no contract of its own). Its properties are proved in `TrashMap.AbbreviationOrName`. |
| `TrashMap.FindTable` | EcoMoveUI/components/trash_map.tsx:142-143 | Definition of the two-step table lookup (no contract of its own). Its properties are proved in `TrashMap.FindsBuiltTable` and `TrashMap.AbbreviationOrName`. |
| `TrashMap.Proper` | EcoMoveUI/components/trash_map.tsx:159 | Definition of the display name (no contract of its own). Its properties are proved in `TrashMap.ProperOfKnownName`. |
| `TrashMap.GetCategoryForStateAsWritten` | EcoMoveUI/components/trash_map.tsx:137-149 | `getCategoryForState` as written, reading inherited properties (no contract of its own). `TrashMap.InheritedKeyCounterexample` and `TrashMap.AsWrittenAgrees` state its behaviour. |
| `TrashMap.IsSupportedStateAsWritten` | EcoMoveUI/components/trash_map.tsx:150-153 | `isSupportedState` as written (no contract of its own). `TrashMap.InheritedKeyCounterexample` and `TrashMap.AsWrittenAgrees` state its behaviour. |
| `TrashMap.ReadSlot` | EcoMoveUI/components/trash_map.tsx:143 | Reading a plain object finds an inherited property exactly when the key is not an own key but an `Object.prototype` name. |
| `TrashMap.InheritedKeyCounterexample` | EcoMoveUI/components/trash_map.tsx:141-153 | As written, the hint `constructor` makes `getCategoryForState` throw and `isSupportedState` answer true. The corrected lookup answers no category and not supported. |
| `TrashMap.AsWrittenAgrees` | EcoMoveUI/components/trash_map.tsx:141-153 | For hints that are not inherited property names, the code as written and the corrected lookup agree. |

## Left out

- Storage and I/O are not modelled as such:
  - AsyncStorage and the FileSystem calls of the capture log, and `_load_db` / `_save_db` of the backend, are replaced by the fields of the two store classes.
  - JSON text is not modelled. Parsing, `JSON.stringify` and the fallback to `[]` on a corrupt log are left out.
- Failures of `getInfoAsync` and `deleteAsync` are not modelled. The `catch {}` blocks in the deletion loop and around log removal swallow them, and the model takes every call to succeed.
- The Flask routing, CORS, `send_from_directory` and the detector endpoint's image work are left out. The endpoint covers YOLO inference, box normalisation by image size, plotting, PIL encoding and base64. Only its query parameters are modelled.
- The device location is a parameter:
  - `getCurrentState` (location permission, GPS and reverse geocoding) and the asynchronous `lookup` are not modelled.
  - The capture screen and the log take the classifier for the current region as a parameter, and assume it answers the same way for every box.
  - `Promise.all` and the `cancelled` flag are not modelled.
- Other outside values are parameters or left out:
  - `uuid4`, the clock (`now_iso`, `new Date().toISOString()`), `secure_filename`, `encodeURIComponent` and `Platform.select` become parameters.
  - `Math.random` / `pickRandom` (the fun fact) is left out.
- The contents of `trash.json` are an arbitrary input.
- Floating point is not modelled:
  - the alpha of `soft`;
  - `toFixed(1)` and the rendering of coordinates, which are a number-format parameter of the facility card;
  - detection confidences.
- Case mapping covers ASCII letters only. JavaScript `toUpperCase`/`toLowerCase` and Python `lower` map all of Unicode.
- `PostsApi.ReadForm`: the JSON body is modelled as a map from strings to strings, so two cases are missing. A field holding a truthy non-string (a number other than 0, `true`, a non-empty list or object) makes `.strip()` raise. A falsy non-string (`0`, `false`, `[]`, `{}`, `null`) becomes `""` through `or ""` and is reported as a missing field. A body that is JSON but not an object (`[1]`, `"x"`, `5`) makes `data.get` raise.
- `PostsApi.ParseInt`, and through it `PostsApi.JpegQuality` and `PostsApi.LineWidth`: the digit set is that of Unicode 15.0 and the digit limit is the default 4300. The limit can be changed with `PYTHONINTMAXSTRDIGITS`, and Python before 3.11 has none.
- `PostsApi.PostStore.CreatePost`: requests are modelled as serialised. In the source, `create_post` loads the database, takes `next_id` and saves without a lock (api.py:243-256), and `app.run(debug=True)` (api.py:264) serves requests on threads. Two concurrent creates can therefore read the same `next_id`, and one post can be lost when the second save overwrites the first.
- `TrashMap.ListSupportedStates`: the final `sort()` is modelled in code-point order. JavaScript compares UTF-16 code units, which orders characters outside the Basic Multilingual Plane differently. The `length === 2` skip counts UTF-16 code units, through `Text.Utf16Length`. Python's `sorted` in `PostsApi.ListPosts` compares code points, as the model does.
- `CaptureLogs.Put`, `CaptureLogs.SpreadNames` and `CaptureLogs.EntryOverrides` model property order for keys that are not integer-like. JavaScript lists integer-like keys (`"0"`, `"42"`) first, in ascending order. The computed keys of a log entry are not integer-like, and the only caller, capture.tsx:136, passes no `extra`.
- `FacilityCard.ColorFor` does not model inherited `Object.prototype` keys: a category named `constructor` picks up a function rather than the default palette.
- `TrashMap.RegisterEntry` does not model inherited keys of `NAME_TO_ABBR`. A rules entry whose state is `constructor` would make `abbr.toLowerCase` throw while the table is being built.
- The rendering (React components, styles, icons, the `tel:` link) and the alerts are left out. So are the other screens.

## Findings

| source | as written | input that shows it | evidently intended | confidence | as-written member | corrected member |
|---|---|---|---|---|---|---|
| EcoMoveUI/components/trash_map.tsx:141-153 | `STATE_TABLE` is a plain object indexed with `STATE_TABLE[key]`, so keys such as `constructor` read inherited `Object.prototype` properties | region hint `"constructor"` with no such state in the rules: `getCategoryForState` reaches `table.byName.get` on a function and throws a `TypeError`; `isSupportedState` returns `true` | only the table's own keys count: no category, not supported | not executed | `TrashMap.GetCategoryForStateAsWritten` (shown by `TrashMap.InheritedKeyCounterexample`) | `TrashMap.GetCategoryForState` |
