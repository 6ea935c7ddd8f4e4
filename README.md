# Income-tax regime comparator: a Dafny model

This project models the tax engine of a small salary-slip web application.
The engine takes a flat record of financial fields. It computes the income
tax under the "old" and the "new" regime and reports which regime is
cheaper. It also models the parts of the web front end that shape that
record before it reaches the engine.

- `tax_calculator.dfy` (module `TaxCalculator`) models `tax_calculator.py`:
  - `safe_float`: the normalisation of a raw value to a number, 0 on failure.
  - The old-regime schedule over income minus five deductions.
  - The new-regime slab walk, a method with a `for` loop. It leaves the
    loop early by `return` where the source has `break`. It is proved
    equal to a sum of slab overlaps. That sum plus the post-loop top-band
    increment is proved equal to an independent table of cumulative
    amounts.
  - `compare_regimes`.
- `app.dfy` (module `App`) models four pieces of `app.py`:
  - The upload file-name check `allowed_file`.
  - The `{`…`}` slice taken from the language model's reply.
  - The `None` filter on the upload redirect.
  - The defaulting loop of the review form, which writes 0 into the form in place.

## How values are modelled

- A raw field value is modelled by one of four cases. Values that `float()`
  turns into `nan` or an infinity have no case (see "## Left out"):
  - `NoneVal`: Python `None`.
  - `EmptyStr`: `''`.
  - `Num(x)`: a value that `float()` converts to the finite number `x`.
  - `Unparsable`: a value `float()` rejects.
- A record is a `map<string, Raw>`. A missing key stays distinct from a
  key that holds `None` or `''`. The code treats these differently: the
  50000 standard deduction applies only when the key is absent.
- Amounts are exact reals. The rates are exact decimals (`0.05`, …). The
  4% cess is written `tax + tax * 0.04` and proved equal to `tax * 1.04`.
- Python's `round(x, 2)` becomes `RoundCents`: the nearest cent on exact
  reals, with halves rounded up.
- `selected_regime` is passed to `Review` as an optional string beside the
  form. A uuid stands in for `session_id`. The model stores it as
  `Unparsable`, since `float()` rejects a uuid string.

## Behaviour fixed by the code

Three points of the code are easy to get wrong. The model follows the code on each.

- Ties in `compare_regimes` go to `'new'`: `'old'` is chosen only when it
  is strictly cheaper (`tax_calculator.py:58`).
- The new regime charges 5% from the first rupee, with no zero band.
  Taxable 300000 thus pays 15000 before cess (15600 after), not 0.
  Taxable 600000 pays 46800 after cess.
- A standard deduction that is present as `None` or `''` counts as 0. Only
  an absent key gets 50000. On the review path the defaulting loop fills
  every blank field first, so an empty standard deduction reaches the
  calculator as 0, never 50000 (`ReviewPathExample`).

## Model

| member | source | states |
|---|---|---|
| `TaxCalculator.SafeFloat` | tax_calculator.py:1-7 | `None`, `''` and values `float()` rejects with `TypeError` or `ValueError` give 0.0; a value it converts to a finite number gives that number |
| `TaxCalculator.Get` | tax_calculator.py:10 | `dict.get`: the stored value when the key is present, the default otherwise |
| `TaxCalculator.Field` | tax_calculator.py:10-16 | a field read with default 0 is its number when it holds one and 0 when it is absent, `None`, `''` or not a number |
| `TaxCalculator.Income` | tax_calculator.py:10 | the gross salary is its number when present and numeric, 0 otherwise |
| `TaxCalculator.StandardDeduction` | tax_calculator.py:14 | 50000 exactly when the key is absent; 0 when it holds `None`, `''` or garbage; otherwise the number given |
| `TaxCalculator.Taxable` | tax_calculator.py:18 | `max(0, income - deductions)`: never negative, at least income minus deductions, and equal to one of the two |
| `TaxCalculator.WithCess` | tax_calculator.py:27-28 | tax plus 4% cess is exactly 104/100 of the tax |
| `TaxCalculator.RoundCents` | tax_calculator.py:28 | the result is a whole number of cents, within half a cent of the input, and non-negative for a non-negative input; these fix it uniquely, and an exact half cent goes to the upper cent |
| `TaxCalculator.RoundCentsExact` | tax_calculator.py:28 | a whole number of cents is left unchanged |
| `TaxCalculator.RoundCentsMonotone` | tax_calculator.py:28 | rounding to cents never reverses an order |
| `TaxCalculator.OldDeductions` | tax_calculator.py:11-17 | with all four itemised deductions absent the sum is just the standard deduction; it is non-negative whenever every numeric field is |
| `TaxCalculator.OldTaxable` | tax_calculator.py:18 | income less the five deductions, floored at 0: 0 when the deductions cover the income, the difference otherwise |
| `TaxCalculator.OldBracket` | tax_calculator.py:19-26 | the old schedule is non-negative and 0 for taxable at or below 250000 |
| `TaxCalculator.OldBracketContinuous` | tax_calculator.py:20-26 | adjacent branch formulas agree at 250000, 500000 (12500) and 1000000 (112500) |
| `TaxCalculator.OldBracketMonotone` | tax_calculator.py:19-26 | the old schedule is non-decreasing in taxable |
| `TaxCalculator.CalculateOldRegime` | tax_calculator.py:9-28 | the old-regime result is never negative |
| `TaxCalculator.OldRegimeMonotoneInGross` | tax_calculator.py:10-28 | with every other field fixed, a higher gross salary never gives a lower old-regime tax |
| `TaxCalculator.OldRegimeBlankDeductionIsZero` | tax_calculator.py:11-17 | an 80C, 80D, professional-tax or HRA field that is absent, `None`, `''` or garbage gives the same tax as an explicit 0 |
| `TaxCalculator.OldRegimeBoundaryExamples` | tax_calculator.py:18-28 | with no deductions, gross 250000, 500000 and 1000000 give 0, 13000 and 117000 |
| `TaxCalculator.NewSlabsAscending` | tax_calculator.py:35-41 | the slab table has non-negative, non-decreasing limits and non-negative rates |
| `TaxCalculator.Overlap` | tax_calculator.py:44-48 | the part of `[prev, limit]` inside `[0, taxable]`: 0 when taxable is at or below prev, otherwise `min(taxable, limit) - prev`, and within the slab width |
| `TaxCalculator.SlabSumStable` | tax_calculator.py:47-49 | slabs after the one that holds taxable add nothing, so stopping the walk there loses nothing |
| `TaxCalculator.SlabSumStops` | tax_calculator.py:47-49 | the sum over all slabs equals the sum up to the slab that holds taxable |
| `TaxCalculator.SlabSumNonNegative` | tax_calculator.py:43-49 | the slab sum `SlabSum` is never negative for an ascending table |
| `TaxCalculator.WalkPassStep` | tax_calculator.py:44-46 | a slab whose limit taxable exceeds adds `(limit - prev) * rate` to the overlap sum |
| `TaxCalculator.WalkStopStep` | tax_calculator.py:47-48 | the slab that holds taxable adds `(taxable - prev) * rate` to the overlap sum |
| `TaxCalculator.WalkStopPrev` | tax_calculator.py:42-49 | where the walk stops, prev is at least every limit below taxable |
| `TaxCalculator.WalkSlabs` | tax_calculator.py:42-49 | the loop's tax equals the overlap sum over the slabs; it runs at most one step per slab, stopping early only at a slab whose limit is at or above taxable; prev ends as 0 or a slab limit, at or below taxable, and at least every limit below taxable |
| `TaxCalculator.TopIncrement` | tax_calculator.py:50-51 | the post-loop increment is non-negative and is 0 exactly when taxable is at most 1500000 |
| `TaxCalculator.NewRegimeBracket` | tax_calculator.py:35-51 | the new-regime bracket tax (slab overlap sum plus top increment) is never negative |
| `TaxCalculator.NewSlabPrefixes` | tax_calculator.py:35-49 | the slab sum over the five slabs is 5%, 10%, 15%, 20% and 30% of the overlap with each band |
| `TaxCalculator.NewRegimeBracketTable` | tax_calculator.py:35-51 | walk plus top increment equals the cumulative table `NewBracketTable` (15000, 45000, 90000, 150000, 240000 at the limits, then 30%); nothing is counted twice at 1500000 |
| `TaxCalculator.NewRegimeBracketMonotone` | tax_calculator.py:35-51 | the new-regime bracket tax is non-decreasing in taxable |
| `TaxCalculator.NewTaxable` | tax_calculator.py:31-33 | income less the standard deduction alone, floored at 0: 0 when the deduction covers the income, the difference otherwise |
| `TaxCalculator.NewRegimeTax` | tax_calculator.py:30-53 | the new-regime result is never negative |
| `TaxCalculator.CalculateNewRegime` | tax_calculator.py:30-53 | the method (slab walk, post-loop increment, cess, rounding) returns exactly `NewRegimeTax` of its input |
| `TaxCalculator.NewRegimeIgnoresOtherFields` | tax_calculator.py:30-33 | changing or removing any field other than gross salary and standard deduction leaves the new-regime tax unchanged |
| `TaxCalculator.NewRegimeMonotoneInGross` | tax_calculator.py:31-53 | with every other field fixed, a higher gross salary never gives a lower new-regime tax |
| `TaxCalculator.NewRegimeFirstSlabIsTaxed` | tax_calculator.py:36 | gross 350000 and 650000 with the default deduction give 15600 and 46800: there is no zero band |
| `TaxCalculator.RegimeName` | tax_calculator.py:58 | the reported name is `"old"` exactly for `Old` and `"new"` exactly for `New` |
| `TaxCalculator.BestRegime` | tax_calculator.py:58 | `Old` exactly when the old tax is strictly lower; equal taxes give `New` |
| `TaxCalculator.EmptyRecordTies` | tax_calculator.py:55-58 | an empty record costs 0 under both regimes and the tie goes to `New` |
| `TaxCalculator.CompareRegimes` | tax_calculator.py:55-64 | both taxes are the two regimes' values, `best` is `Old` exactly when old is strictly cheaper, the reported name is `"old"` exactly then and `"new"` otherwise, and the selection is echoed without affecting either tax |
| `App.IndexOf` | app.py:57 | `str.find`: -1 exactly when the character is absent, otherwise its first index |
| `App.LastIndexOf` | app.py:58 | `str.rfind`: -1 exactly when the character is absent, otherwise its last index |
| `App.IndexOfUnique` | app.py:57 | an index that holds the character with none before it is what `find` returns |
| `App.LastIndexOfUnique` | app.py:31 | an index that holds the character with none after it is what `rfind` and `rsplit` use |
| `App.ToLower` | app.py:31 | lower-cases each character one for one (ASCII `A`–`Z`), so the length is kept |
| `App.ToLowerSuffix` | app.py:31 | lower-casing commutes with taking a suffix |
| `App.ToLowerIdempotent` | app.py:31 | lower-casing twice is lower-casing once |
| `App.DotInLower` | app.py:31 | lower-casing neither adds nor removes a `.` |
| `App.Extension` | app.py:31 | for a name with a dot, the second part of splitting once from the right at `.`: a dot-free suffix that directly follows a `.` |
| `App.AllowedFile` | app.py:30-31 | a name without a `.` is refused |
| `App.LastDotOfSplit` | app.py:31 | in `stem + "." + ext` with no dot in `ext`, the last dot is the one before `ext`, and the extension is `ext` |
| `App.AllowedFileSplit` | app.py:30-31 | such a name is accepted exactly when `ext` lower-cases to an allowed extension (`{'pdf'}`) |
| `App.LowerIsPdf` | app.py:23 | an extension lower-cases to `pdf` exactly when it is p, d, f in either case each |
| `App.AllowedFileUpperCase` | app.py:31 | `a.PDF` is accepted |
| `App.AllowedFileLastDotOnly` | app.py:31 | `a.pdf.exe` is refused |
| `App.AllowedFileEmptyExtension` | app.py:31 | `a.` is refused |
| `App.AllowedFileIgnoresCase` | app.py:30-31 | lower-casing the whole name first never changes the verdict |
| `App.ClampIndex` | app.py:60 | a slice bound is clamped into `0..n`; an in-range bound is kept |
| `App.PySlice` | app.py:60 | `s[a:b]` is `s[a..b]` for in-range bounds and empty when `b <= a` |
| `App.JsonCandidate` | app.py:57-60 | the slice is taken exactly when the reply holds a `{`, since the guard on `rfind(...)+1` never fails; a non-empty slice starts with `{` and ends with `}`; it is empty when the reply has no `}` or when its last `}` comes before its first `{` |
| `App.JsonCandidateRecovers` | app.py:57-60 | an object with no `{` before it and no `}` after it is recovered whole, whatever braces it holds inside |
| `App.ForwardedFields` | app.py:192 | keeps exactly the fields whose value is not `None`, with their values unchanged |
| `App.ForwardedFieldsLookups` | app.py:192 | forwarding is invisible to `dict.get(key)`, is idempotent and leaves no `None` value |
| `App.Blank` | app.py:237 | a field counts as missing exactly when it is absent, `None` or `''` |
| `App.DefaultedKeys` | app.py:233-238 | after defaulting a list of keys, each is present and not blank; the blank ones hold 0; every other entry is unchanged |
| `App.DefaultedForm` | app.py:231-238 | after the loop all nine financial keys are present and not blank; the blank ones hold 0; non-blank values and all other keys are unchanged |
| `App.DefaultedKeysStep` | app.py:237-238 | defaulting one more key writes 0 over it exactly when it is still blank |
| `App.FillDefaults` | app.py:233-238 | the in-place loop over the nine keys leaves exactly `DefaultedForm` of the submitted form |
| `App.DefaultedFormIdempotent` | app.py:233-238 | defaulting an already defaulted form changes nothing |
| `App.DefaultedFormFigures` | app.py:233-238 | defaulting keeps the gross salary and every deduction the calculator reads, except a blank standard deduction, which becomes 0 |
| `App.ReviewBlankStandardDeductionIsZero` | app.py:237-243 | with a blank standard deduction, both regimes on the reviewed form compute as if the form had said 0, not the calculator's 50000 |
| `App.ReviewPathExample` | app.py:231-243 | gross 400000 alone: the calculator by itself gives a new-regime tax of 20800; the review path gives 26000 |
| `App.SelectedRegime` | app.py:241 | the selected regime defaults to `"new"` when the form omits it, and is echoed otherwise |
| `App.Review` | app.py:229-243 | the reviewed form is the defaulted form plus the session id; the comparison is `compare_regimes` on it with the selected regime; a blank standard deduction arrives as 0 |

## Left out

- TaxCalculator.RoundCents: rounds halves up on exact reals. Python's `round(x, 2)` rounds a binary float to the nearest value, with ties to even. The model makes no claim of equality with it. Both give whole cents within half a cent of the input, monotonically.
- Binary floating point: all amounts are exact reals. The parsing done by `float()` is abstracted into the `Raw` cases. Only finite results are covered.
- Non-finite values: `float()` accepts strings such as `'nan'`, `'inf'` and `'1e999'`. None of them has a `Raw` case, so the model does not capture what Python does with them. A nan in the gross salary or an old-regime deduction makes `max(0, nan)` (`tax_calculator.py:18`) return 0, so that regime's tax is 0. A gross salary of `'inf'` makes both taxes infinite, and `'new'` is reported as best.
- `safe_float` catches only `TypeError` and `ValueError` (`tax_calculator.py:6`). So `float()` of an integer beyond the double range raises `OverflowError` out of it. The model's `SafeFloat` never fails. The review form supplies only strings, so this does not arise on that path.
- App.ToLower: lowers only `A`–`Z`, one character for one. Python's `str.lower` also lowers letters of other scripts, and it can change the length: `'İ'.lower()` has two characters. Only `P`, `D` and `F` lower to `p`, `d` and `f`. A character that lowers to several characters always yields a non-ASCII one. So `AllowedFile` is unaffected.
- Flask routing, `request`/`session`, `flash`, redirects, `secure_filename`, file saving and every template, including the GET pre-fill of the review form in `app.py` (its 50000 default lives in the template call). These are request plumbing and presentation.
- PDF text extraction (PyPDF2), OCR (pdf2image, pytesseract) and the regex fallback of `extract_pdf_data`. These are foreign libraries and Python regular-expression semantics.
- The Gemini HTTP calls (`call_gemini_for_extraction` apart from its brace slice, and `gemini_ask`), and `json.loads` of the slice. These are network access and foreign parsing.
- `log_ai_conversation` and the `advisor` route. These are file I/O and network access.
- The psycopg2 writes in `review` and all of `supabase_db_create.py`. These are persistence with no logic.
- `uuid.uuid4()`: the session id is a fresh random string, stored as `Unparsable`.
- The `print` calls in `review` and `call_gemini_for_extraction`.
