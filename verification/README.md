# Licence-plate region resolvers and contour filters, in Dafny

This project models the decision logic of a set of Streamlit pages that detect
motor-vehicle licence plates in a photo. Each page finds contours, keeps the
ones shaped like a plate, crops them, and (on some pages) reads them with OCR
and names the region the plate comes from. The model covers four parts:

* **The region resolvers.**
  * `get_region` (DsTuju.py, DsEnam.py) answers for the province of Lampung. It upper-cases the text, keeps `[A-Z0-9]`, and rewrites `8E` to `BE`. It then requires the `BE` prefix, takes the letter after the digits of the leftmost `BE<digits><letter>`, and looks that letter up in the eleven regency keys.
  * `wilayah` (CodeFix.py) is a national prefix map where the first key in declaration order wins.
* **The contour filters.** There are four variants:
  * a two-sided area band plus a `w / h` band, with no guard for `h == 0` (DsTiga.py, DsSatu.py, DsDua.py);
  * an area minimum plus a `w / h` band that takes 0 when `h == 0` (DsTuju.py, DsEnam.py, CodeFix.py);
  * an area minimum plus an unguarded `w / h` (DsEmpat.py);
  * area, solidity and the long-over-short aspect of the rotated rectangle, followed by a stable sort by area, largest first, and a cut to `max_plates` (DsLima.py).
* **The padded crop window** of DsLima.py: 30 pixels on every side, clipped to the image.
* **The per-candidate records**: the rectangles drawn, the crops, the OCR texts and the locations, which grow in lockstep. The OCR text is cut down to its letters and digits. A fixed marker is used when OCR is unavailable, reads nothing, or raises.

The contour records (area, bounding box, hull area, rotated rectangle) are
inputs. OCR is a function from a crop to `Read(text)` or `OcrError`. Images
are values, so an annotated copy is the original image plus the list of marks
drawn on it. An exception the source does not catch is an `Err` result:
`ZeroDivision` for an unguarded `w / float(h)`, and `OcrFailed` for an OCR
call outside a `try`.

Module layout:
* Shared pieces:
  * `Outcomes`, `Seqs` (order-preserving filter, Python slicing), `PlateText` (ASCII character classes and string clean-ups), `Geometry` (images, boxes, contours, numpy slicing) and `Ocr`.
  * `RatioGate` and `CandidateRecords`: the guarded ratio test and the record loop shared by CodeFix.py, DsTuju.py and DsEnam.py.
  * `AreaRanking`: the sort and cut of DsLima.py.
* One module per page: `LampungRegion` (the `get_region` shared by DsTuju.py and DsEnam.py), `CodeFix`, `DsTuju`, `DsEnam`, `DsLima`, `DsEmpat` and `DsTiga`.
* `DsTiga` also models the `detect_license_plate` of DsSatu.py and DsDua.py. That function is DsTiga's with a shorter return tuple.

Where the explanation page of DsEnam.py and its code disagree, the model follows the code (see `DsEnam.UnlistedCodeAnswer`).

## Model

| member | source | states |
|---|---|---|
| Seqs.Filter | DsTiga.py:21-29 | the append-if-passes loop as a function, never longer than its input; `FilterCharacterization`, `FilterSound` and `FilterComplete` state what it keeps |
| Seqs.FilterComplete | DsTiga.py:21-29 | every input element that passes the test is in the kept list |
| Seqs.FilterCharacterization | DsTiga.py:21-29 | the kept list is an order-preserving subsequence: position k holds input position idx[k] for strictly increasing idx, and a position is in idx exactly when its element passes |
| Seqs.FilterSound | DsDua.py:27-34 | every kept element passes the test and comes from the input |
| Seqs.FilterAppend | DsTiga.py:23-29 | filtering a concatenation is the concatenation of the filtered parts |
| Seqs.FilterPrefix | DsLima.py:265-266 | filtering a prefix gives a prefix of the filtered list |
| Seqs.PyIndex | DsTiga.py:36 | a slice bound is clamped into [0, n], and an in-range bound is left as it is |
| Seqs.Slice | DsLima.py:266 | `s[start:stop]` with Python's clamped bounds: its length is the clamped span; `SliceSplit`, `SliceFromEnd` and `SliceClamped` state its laws |
| Seqs.SliceSplit | DsLima.py:266 | `s[:k] + s[k:]` is `s` for every integer k, negative or out of range included |
| Seqs.SliceFromEnd | DsLima.py:266 | a negative stop counts from the end: `s[:k]` for -len(s) <= k < 0 is the first len(s) + k elements |
| Seqs.SliceClamped | DsLima.py:266 | a stop past either end is clamped: `s[:k]` is all of `s` for k >= len(s) and empty for k < -len(s) |
| PlateText.Upper | DsTuju.py:111 | `str.upper` keeps the length, leaves no lower-case letter, keeps every other character, and maps each lower-case letter to its capital |
| PlateText.UpperIdempotent | DsEnam.py:49 | upper-casing twice is upper-casing once |
| PlateText.UpperAppend | DsEnam.py:49 | upper-casing distributes over concatenation |
| PlateText.Sanitize | DsTuju.py:153 | `"".join(ch for ch in txt if ch.isalnum())`; `CanonicalIsUpperSanitized`, `StripSanitized` and `CandidateRecords.RecognisedTexts` state its properties |
| PlateText.Canonical | DsTuju.py:111 | the cleaned text holds only characters of `[A-Z0-9]` |
| PlateText.CanonicalIsUpperSanitized | DsEnam.py:49-50 | upper-casing then keeping `[A-Z0-9]` equals keeping letters and digits then upper-casing |
| PlateText.CanonicalIdempotent | CodeFix.py:54 | cleaning cleaned text changes nothing |
| PlateText.CanonicalFixed | CodeFix.py:54 | text made only of `[A-Z0-9]` is its own cleaned form |
| PlateText.CanonicalAppend | DsTuju.py:111 | the clean-up distributes over concatenation |
| PlateText.ReplaceConfusion | DsEnam.py:53 | `replace("8E", "BE")`, keeping the length; `ReplaceConfusionPointwise`, `ReplaceConfusionClears` and `ReplaceConfusionIdempotent` characterise it |
| PlateText.ReplaceConfusionPointwise | DsEnam.py:53 | `replace("8E", "BE")` turns exactly the 8 of every "8E" into B and keeps every other character |
| PlateText.ReplaceConfusionClears | DsEnam.py:53 | after the rewrite no "8E" remains, and text of `[A-Z0-9]` stays within `[A-Z0-9]` |
| PlateText.ReplaceConfusionIdempotent | DsTuju.py:111 | rewriting twice equals rewriting once |
| PlateText.Strip | DsLima.py:295 | `str.strip()` over ASCII whitespace; `StripSanitized` shows it leaves alphanumeric text unchanged |
| PlateText.StripSanitized | DsLima.py:295 | `.strip()` after keeping letters and digits changes nothing |
| Geometry.SliceImage | DsTiga.py:36 | `img[y0:y1, x0:x1]` has the clamped dimensions, stays rectangular, and pixel (i, j) is source pixel (lo_y + i, lo_x + j) |
| Geometry.Crop | DsTiga.py:36 | `image[y:y+h, x:x+w]` as a numpy slice; `CropInside` gives its size and pixels for a box inside the image |
| Geometry.CropInside | DsTiga.py:36 | a box inside the image crops to exactly h x w pixels, pixel (i, j) being (y + i, x + j) |
| Geometry.SliceInside | DsLima.py:288 | an in-bounds slice is (y1 - y0) x (x1 - x0) pixels taken from (y0 + i, x0 + j) |
| LampungRegion.Normalize | DsTuju.py:111 | upper-case, keep `[A-Z0-9]`, rewrite "8E"; `NormalizeFixed` and `ConfusionCorrected` state its properties |
| LampungRegion.CodeLetter | DsTuju.py:113-115 | `re.search(r"BE\d+([A-Z])", text).group(1)`; `CodeLetterSpec` and `LeftmostLetter` tie it to the leftmost match |
| LampungRegion.DigitRun | DsTuju.py:113 | the greedy `\d+` run: every character in it is a digit and the next one is not |
| LampungRegion.DigitRunExact | DsTuju.py:113 | a run of exactly k digits followed by a non-digit is what the greedy run finds |
| LampungRegion.MatchAtSpec | DsTuju.py:113 | trying the pattern at one position gives a letter exactly when `BE\d+([A-Z])` matches there |
| LampungRegion.SearchFromSpec | DsTuju.py:113-115 | the unanchored search returns the letter of the first matching position at or after its start, and nothing when none matches |
| LampungRegion.MatchLengthUnique | DsTuju.py:113 | at a given position the pattern can match with only one digit count |
| LampungRegion.CodeLetterSpec | DsTuju.py:113-115 | the code letter is c exactly when the leftmost match captures c, and there is none exactly when the pattern matches nowhere |
| LampungRegion.LeftmostLetter | DsTuju.py:113-115 | when a letter is found, a leftmost match exists and every leftmost match captures that letter |
| LampungRegion.LookupIn | DsTuju.py:122-124 | the loop over the table's items; `LookupInSpec` and `DisjointLookup` state what it returns |
| LampungRegion.LookupInSpec | DsTuju.py:122-124 | first-match lookup returns the name of the first key holding the letter, and nothing when no key holds it |
| LampungRegion.KeySlotOf | DsTuju.py:116-121 | a letter of key j has slot j |
| LampungRegion.RegenciesDisjoint | DsTuju.py:116-121 | no letter lies in two keys |
| LampungRegion.DisjointLookup | DsTuju.py:122-123 | with disjoint keys the lookup gives a name exactly when some key holding the letter carries it, so the order of the table does not matter |
| LampungRegion.NoKeyHolds | DsTuju.py:116-121 | D, I and O are in no key |
| LampungRegion.KeySlotCovers | DsTuju.py:116-121 | every other capital letter is in the key of its slot |
| LampungRegion.LookupBySlot | DsTuju.py:122-123 | looking up a letter gives the name of its slot's key |
| LampungRegion.UncoveredLetters | DsTuju.py:116-124 | a capital letter has no regency exactly when it is D, I or O |
| LampungRegion.LabelsDistinct | DsTuju.py:110-124 | the eleven names and the three sentinels are pairwise different |
| LampungRegion.GetRegion | DsTuju.py:109-124 | `get_region`, the same code as DsEnam.py:44-84; `GetRegionSpec` gives an iff for each answer and `GetRegionTotal` its range |
| LampungRegion.GetRegionSpec | DsTuju.py:109-124 | "teks plat kosong" iff the text is empty; "plat ini bukan dari lampung" iff non-empty and the normal form lacks the BE prefix; regency j iff the leftmost match captures a letter of key j; "kode wilayah Lampung tidak dikenali" iff the prefix is there and no leftmost match captures a listed letter; DsEnam.py:44-84 is the same resolver |
| LampungRegion.GetRegionTotal | DsTuju.py:109-124 | every answer is one of the eleven names or one of the three sentinels |
| LampungRegion.ConfusionCorrected | DsTuju.py:111 | "8E" + rest resolves exactly like "BE" + rest |
| LampungRegion.NormalFromSound | DsTuju.py:111 | the position-by-position check implies every character is in `[A-Z0-9]` and no "8E" occurs |
| LampungRegion.NormalizeFixed | DsTuju.py:111 | such text is its own normal form |
| LampungRegion.EmptyExample | DsTuju.py:110 | "" gives "teks plat kosong" |
| LampungRegion.PunctuationExample | DsTuju.py:110-112 | "--" is non-empty but cleans to "", so it gives "plat ini bukan dari lampung" |
| LampungRegion.OutsideExample | DsTuju.py:112 | "XY1234Z" gives "plat ini bukan dari lampung" |
| LampungRegion.BandarLampungExample | DsTuju.py:113-123 | "BE1234A" gives "Kota Bandar Lampung" |
| LampungRegion.MisreadExample | DsTuju.py:111 | "8E1234A" gives "Kota Bandar Lampung" |
| LampungRegion.LaterMatchExample | DsTuju.py:113-119 | in "BEXBE12Q" the match starts at position 3 and captures Q, giving "Kabupaten Lampung Timur" |
| LampungRegion.NoLetterExample | DsTuju.py:113-114 | "BE1234" has no match and gives "kode wilayah Lampung tidak dikenali" |
| LampungRegion.UnlistedLetterExample | DsTuju.py:122-124 | "BE1234D" captures D, which no key holds, and gives "kode wilayah Lampung tidak dikenali" |
| RatioGate.GuardedRatio | DsTuju.py:141 | `w/h if h else 0`; `KeptBoxShape` shows a box of height 0 never passes a non-negative lower bound |
| RatioGate.Keep | DsTuju.py:139-142 | the area test and the ratio test; `KeptBoxShape` restates them without division, also for CodeFix.py:74-77 and DsEnam.py:103-107 |
| RatioGate.Gate | DsTuju.py:138-142 | `Keep` as the test of the loop over the contours; `CandidateRecords.DetectCandidates` keeps exactly the contours it accepts |
| RatioGate.KeptBoxShape | DsTuju.py:139-142 | with min_ratio >= 0 a contour is kept iff area > min_area, h > 0 and min_ratio * h < w < max_ratio * h, so a zero-height box is never kept; the same test is CodeFix.py:74-77 and DsEnam.py:103-107 |
| RatioGate.DefaultGate | DsTuju.py:100-103 | with the session defaults a contour is kept iff area > 1500, h > 0 and 2h < w < 6h |
| CandidateRecords.DetectCandidates | DsTuju.py:135-160 | the run fails iff OCR raises on some kept crop; otherwise the rectangles, crops, texts and locations hold one entry per kept contour in discovery order, each text and location made as the OCR mode says |
| CandidateRecords.ReadPlate | DsTuju.py:146-158 | the text and location of one crop: an error iff the recogniser raises on it; otherwise the alphanumeric characters of the reading and their region when OCR is installed, and the fixed markers when it is not |
| CandidateRecords.KeptPrefix | DsTuju.py:138-145 | a contour kept at position i lands in the kept list right after those kept before it |
| CandidateRecords.RaisingContour | DsTuju.py:147-152 | OCR raising on the crop of a kept contour makes the whole run fail |
| CandidateRecords.DescribedRunsRead | DsTuju.py:147-155 | when every kept contour has a record, OCR read every kept crop |
| CandidateRecords.RecognisedTexts | DsEnam.py:118 | each text holds only letters and digits, exactly those of the OCR output in order |
| CodeFix.PrefixLookup | CodeFix.py:59-61 | the loop over `peta.items()`; `PrefixLookupSpec` states that the first key starting the text wins |
| CodeFix.Wilayah | CodeFix.py:52-61 | `wilayah`; `WilayahSpec` gives an iff for each answer |
| CodeFix.PrefixLookupSpec | CodeFix.py:59-61 | the lookup finds nothing iff no key starts the text, and otherwise the value of the first key that does |
| CodeFix.FirstPrefixUnique | CodeFix.py:59-60 | at most one entry is the first to match |
| CodeFix.PrefixNamesDistinct | CodeFix.py:53-61 | the nine names and the two sentinels are pairwise different |
| CodeFix.WilayahSpec | CodeFix.py:52-61 | "Tidak dikenali" iff the text is empty; "Wilayah tidak terdaftar" iff non-empty and no key starts the cleaned text; name j iff key j is the first in declaration order to start it |
| CodeFix.PrefixOfPrefix | CodeFix.py:60 | a text starting with a key also starts with every prefix of that key |
| CodeFix.Shadowed | CodeFix.py:59-60 | an entry whose key extends an earlier key is never the first match |
| CodeFix.PalembangUnreachable | CodeFix.py:55-60 | no text gives "Palembang", because "B" is declared before "BG" |
| CodeFix.LampungPlates | CodeFix.py:55-60 | a cleaned text starting with BE gives "Lampung", not "Jakarta & Sekitar" |
| CodeFix.PalembangPlatesGoToJakarta | CodeFix.py:55-60 | a cleaned text starting with BG gives "Jakarta & Sekitar" |
| CodeFix.YogyakartaPlates | CodeFix.py:57-60 | a cleaned text starting with AB gives "Yogyakarta" |
| CodeFix.NothingLeft | CodeFix.py:53-61 | non-empty text that cleans to "" gives "Wilayah tidak terdaftar" |
| CodeFix.LampungExample | CodeFix.py:55-60 | "BE1234CD" gives "Lampung" |
| CodeFix.PalembangExample | CodeFix.py:55-60 | "BG1234CD" gives "Jakarta & Sekitar" |
| CodeFix.YogyakartaExample | CodeFix.py:57-60 | "AB1234CD" gives "Yogyakarta" |
| CodeFix.KeyInitials | CodeFix.py:55-58 | every key is non-empty and starts with one of A, B, D, E, F, H, L |
| CodeFix.UnlistedInitial | CodeFix.py:59-61 | a cleaned text starting with any other character gives "Wilayah tidak terdaftar" |
| CodeFix.UnregisteredExample | CodeFix.py:59-61 | "Z1234" gives "Wilayah tidak terdaftar" |
| CodeFix.Detect | CodeFix.py:63-85 | fails iff OCR raises on a kept crop; otherwise one rectangle, crop, alphanumeric text and `wilayah` location per kept contour, in order |
| DsTuju.DetectPlate | DsTuju.py:127-160 | fails iff OCR is ready and raises on a kept crop; otherwise one record per kept contour, with `get_region` of the text when OCR is ready and the two markers when it is not |
| DsTuju.WithoutOcr | DsTuju.py:156-158 | without OCR the lists have one entry per kept contour and every entry is "-" / "OCR tidak tersedia" |
| DsTuju.WithOcr | DsTuju.py:147-155 | with OCR every location is `get_region` of its text, hence a regency name or a sentinel |
| DsEnam.DetectPlate | DsEnam.py:87-125 | fails iff OCR raises on a kept crop; otherwise one record per kept contour with `get_region` of the alphanumeric text |
| DsEnam.TableMatchesDocumentation | DsEnam.py:66-78 | the letter table in the code is, row by row, the list on the explanation page (lines 205-215) |
| DsEnam.UnlistedCodeAnswer | DsEnam.py:80-84 | a BE plate whose letter is in no key gives "kode wilayah Lampung tidak dikenali", not the "plat ini bukan dari lampung" that lines 217-218 describe |
| DsTiga.Keep | DsTiga.py:25-28 | the area band and the ratio band, with h > 0 so that the ratio is defined; `SelectionBounds` and `DefaultSelection` state it for kept contours |
| DsTiga.Selector | DsTiga.py:23-29 | `Keep` as the test of the first loop; `SelectionSpec` states what the loop keeps with it |
| Geometry.AspectBetween | DsTiga.py:27-28 | for h > 0, `lo < w / float(h) < hi` holds iff `lo * h < w < hi * h` |
| DsTiga.DefaultSelection | DsTiga.py:12-28 | with the keyword defaults a contour is kept iff 500 < area < 50000, h > 0 and 2h < w < 5h |
| DsTiga.FilterContours | DsTiga.py:21-29 | fails with ZeroDivision iff a contour in the area band has h == 0; otherwise the result is the order-preserving selection of the contours passing both strict tests |
| DsTiga.DrawAndCrop | DsTiga.py:31-37 | the copy carries one rectangle and the list one crop per filtered contour, in order, and the copy's base is the input image |
| DsTiga.DetectLicensePlate | DsTiga.py:12-39 | the two loops together: ZeroDivision exactly as above, otherwise the filtered list with its rectangles and crops |
| DsTiga.DetectAndCrop | DsSatu.py:9-42 | the same selection, rectangles and crops, returning only the annotated copy and the crops; DsDua.py:12-45 is the same function |
| DsTiga.SelectionSpec | DsTiga.py:21-29 | the selection is an order-preserving subsequence, no longer than the input, containing position i exactly when contour i passes; the loops at DsSatu.py:24-31 and DsDua.py:27-34 are the same |
| DsTiga.SelectionBounds | DsTiga.py:25-28 | every kept contour has min_area < area < max_area, h > 0 and ratio_min < w/h < ratio_max, all strict |
| DsEmpat.Keep | DsEmpat.py:176-180 | the area minimum and the ratio band, with h > 0; `SelectionBounds`, `WideBoxes` and `TallBoxKept` state it |
| DsEmpat.Selector | DsEmpat.py:175-183 | `Keep` as the test of the loop; `ProcessSteps` keeps exactly the contours it accepts |
| DsEmpat.ProcessSteps | DsEmpat.py:173-185 | fails with ZeroDivision iff a contour above the area minimum has h == 0; otherwise one rectangle and one bounding-box crop per contour passing both strict tests, in discovery order, drawn on a copy of the input |
| DsEmpat.SelectedExtend | DsEmpat.py:175-183 | one more contour joins the selection exactly when it passes both tests, and raises exactly when it passes the area test with h == 0 |
| DsEmpat.PagesReadSameParams | DsEmpat.py:151-158 | the steps page and the full-detection page (lines 268-270) read the same parameters from any session, and an empty session gives `default_params` |
| DsEmpat.FullDetection | DsEmpat.py:266-282 | the full-detection page selects, draws and crops exactly as `process_steps` does with the steps page's parameters |
| DsEmpat.TallBoxKept | DsEmpat.py:179-180 | the ratio is w / h with no long-over-short correction, so a 10 x 40 box taller than wide passes with min_aspect 0.2 |
| DsEmpat.WideBoxes | DsEmpat.py:179-180 | with min_aspect >= 1, the slider's lower end, every kept box is wider than tall |
| DsEmpat.SelectionBounds | DsEmpat.py:176-180 | every kept contour has area > min_area with no upper bound, h > 0 and min_aspect < w/h < max_aspect, strictly |
| DsLima.Keep | DsLima.py:250-261 | the area, solidity and rotated-aspect tests; `AspectRange` and `SolidityGate` state their consequences |
| DsLima.Selector | DsLima.py:249-262 | `Keep` as the test of the first loop; `FilterCandidates` keeps exactly the contours it accepts |
| DsLima.AspectRange | DsLima.py:259-261 | the rotated aspect is >= 1 when the short side is positive and 0 otherwise, so with min_aspect >= 0 a degenerate rectangle is never kept |
| DsLima.SolidityGate | DsLima.py:253-256 | with min_solidity >= 0 a kept contour has a positive hull area and area > min_solidity * hull_area |
| DsLima.FilterCandidates | DsLima.py:249-262 | `filtered_contours` is the order-preserving selection of the contours passing the area, solidity and aspect tests |
| AreaRanking.InsertByArea | DsLima.py:265 | one insertion step of the stable descending sort, lengthening the list by one; `InsertPermutes`, `InsertKeepsOrder` and `InsertStable` characterise it |
| AreaRanking.SortByAreaDesc | DsLima.py:265 | `list.sort(key=area, reverse=True)`, keeping the length; `SortSpec` states sorted, permutation and stability |
| AreaRanking.InsertPermutes | DsLima.py:265 | insertion adds exactly the inserted contour to the multiset |
| AreaRanking.InsertKeepsOrder | DsLima.py:265 | insertion into a list sorted by area, largest first, keeps it sorted |
| AreaRanking.InsertStable | DsLima.py:265 | the inserted contour goes after the earlier contours of its own area |
| AreaRanking.SortSpec | DsLima.py:265 | `sort(key=area, reverse=True)` gives a list sorted largest first, a permutation of the input, and for every area the contours of that area in input order |
| AreaRanking.TopK | DsLima.py:266 | `[:max_plates]`; `TopKPrefix` and `TopKFromEnd` state what it keeps |
| AreaRanking.TopKPrefix | DsLima.py:266 | for k >= 0, `s[:k]` is the first min(len(s), k) elements |
| AreaRanking.TopKFromEnd | DsLima.py:266 | for k < 0, `s[:k]` drops the last -k elements, and is empty when -k >= len(s) |
| AreaRanking.PrefixDominates | DsLima.py:265-266 | in a sorted list every element of a prefix is at least as large as every element after it |
| AreaRanking.TopKShape | DsLima.py:265-266 | the cut keeps min(N, k) contours, sorted, a prefix of the sorted list and a sub-multiset of the kept ones |
| AreaRanking.TopKDominates | DsLima.py:265-266 | every contour kept by the cut is at least as large as every contour it drops |
| AreaRanking.TopKTies | DsLima.py:265-266 | among equal areas the cut keeps the ones found first |
| DsLima.Ranked | DsLima.py:264-266 | `top_contours`: filter, sort, cut; `RankedSpec` characterises it |
| DsLima.DefaultRanking | DsLima.py:111-121 | with `default_params` (max_plates 1) at most one contour survives, exactly when some contour passes, and it is a largest passing one |
| DsLima.RankedSpec | DsLima.py:248-266 | `top_contours` holds min(N, max_plates) of the N passing contours, sorted largest first, each from the input and passing all three tests, none smaller than a dropped one, and ties in discovery order |
| DsLima.PadWindow | DsLima.py:282-287 | the padded, clamped window; `PadWindowSpec` states its bounds |
| DsLima.PaddedCrop | DsLima.py:282-288 | the slice over the padded window; `PaddedCropContainsBox` states its size and pixels |
| DsLima.PadWindowSpec | DsLima.py:282-287 | the padded window starts at or after 0 and ends at or before the image edge; for a box inside the image it contains the box |
| DsLima.PaddedCropContainsBox | DsLima.py:282-288 | for a box inside the image the padded crop is exactly the window's pixels, and the window contains the box |
| DsLima.TextEntry | DsLima.py:292-299 | the entry appended to `plate_texts`; `TextEntrySpec` gives an iff for each kind of entry |
| DsLima.TextEntrySpec | DsLima.py:292-299 | an entry is "OCR Gagal" iff OCR raised, "Tidak Ditemukan" iff it read no letter or digit, and otherwise exactly the letters and digits read |
| DsLima.OutlineCropRead | DsLima.py:268-299 | for each ranked contour in order: an outline numbered i + 1, the padded crop, and its text entry, with all three lists the same length |
| DsLima.ProcessSteps | DsLima.py:248-301 | filter, sort, cut, then outline, crop and read: the outputs describe exactly the contours `RankedSpec` characterises |

## Left out

- OpenCV (grey conversion, blur, Canny, morphology, `findContours`, `contourArea`, `convexHull`, `minAreaRect`, `boundingRect`, `boxPoints`, drawing, `putText`, Otsu thresholding) is foreign numeric code. Contours come in as records, and drawing is recorded as a list of marks rather than rasterised. The edge and morphology images the functions also return are not modelled.
- Tesseract, including `get_tesseract_version` and the `tesseract_cmd` assignment, is a foreign blocking call. It is modelled as a function from crop to `Read(text)` or `OcrError`. Any preprocessing before the call is folded into that function:
  - the grey and Otsu conversion of DsTuju.py:148-149;
  - `preprocess_for_ocr` of DsLima.py:124-146.
- The Streamlit UI is not modelled: pages, sliders, CSS, data frames, dashboard statistics and the login/registration database with SHA-256 hashing. `st.session_state` appears only as the parameter map read by `DsEmpat.StepsPageParams` and `DsEmpat.FullPageParams`.
- File upload, PIL decoding, `image_to_bytes`, ZIP/CSV export and the HTTP animation loader are I/O.
- Ratios, areas and solidity are exact reals. IEEE rounding at the interval boundaries is not modelled.
- `str.isalnum`, `str.upper`, `str.strip` and `\d` are modelled on ASCII only. Non-ASCII letters and digits that Python would accept are not modelled.
- numpy slices are views, but they are modelled as copies. Nothing in the core writes through a crop, so the difference is not observable there.
- `list.sort` in DsLima.py sorts in place. It is modelled as a reference insertion sort whose result is assigned back to the local list, with stability, order and permutation proved.
- DsLima.OutlineCropRead: `np.int0` of the rotated box corners and the label position are not modelled. The mark records only the rotated rectangle and the plate number.
- DsLima.RankedSpec: states the ranking only for `max_plates >= 0`, the slider's range being 1 to 10. For a negative value `AreaRanking.TopKFromEnd` says what the cut keeps, but no lemma relates that cut to the ranking.
- DsEnam.DetectPlate: `OCR_READY` is always true in DsEnam.py, because the `try` only assigns a path. The "-" / "plat ini bukan dari lampung" fallback is kept in `DsEnam.Mode` but cannot be taken.
- DsTuju.py and DsEnam.py differ in OCR preprocessing and in the Tesseract page-segmentation mode. Both live inside the OCR function, so one `LampungRegion.GetRegion` and one `CandidateRecords.DetectCandidates` serve both pages.
- DsTiga.DetectAndCrop: the two `detect_license_plate` copies in DsSatu.py and DsDua.py are the same code as DsTiga.py's except for the returned tuple, so one method models both.
