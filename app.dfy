/** The pieces of the web front end that feed the tax engine: the upload
    file-name check, the brace slice taken from the language model's reply,
    the filter on the upload redirect, and the defaulting of the review form. */
module App {
  import opened TaxCalculator

  datatype Option<T> = None | Some(value: T)

  // ---------------------------------------------------------------------
  // String helpers: str.find, str.rfind, str.lower

  /** str.find(c): the first index of c, or -1. */
  function IndexOf(s: string, c: char): (r: int)
    ensures -1 <= r < |s|
    ensures r == -1 <==> c !in s
    ensures 0 <= r ==> s[r] == c && c !in s[..r]
  {
    if |s| == 0 then -1
    else if s[0] == c then 0
    else
      var r := IndexOf(s[1..], c);
      assert s[1..][..if r < 0 then 0 else r] == s[1..if r < 0 then 1 else r + 1];
      if r == -1 then -1 else r + 1
  }

  /** str.rfind(c): the last index of c, or -1. */
  function LastIndexOf(s: string, c: char): (r: int)
    ensures -1 <= r < |s|
    ensures r == -1 <==> c !in s
    ensures 0 <= r ==> s[r] == c && c !in s[r + 1..]
  {
    if |s| == 0 then -1
    else if s[|s| - 1] == c then |s| - 1
    else
      var r := LastIndexOf(s[..|s| - 1], c);
      assert r >= 0 ==> s[r + 1..] == s[..|s| - 1][r + 1..] + [s[|s| - 1]];
      r
  }

  /** Lower-casing of one character (ASCII letters). */
  function LowerChar(c: char): char
  {
    if 'A' <= c <= 'Z' then (c as int + 32) as char else c
  }

  /** str.lower() */
  function ToLower(s: string): (r: string)
    ensures |r| == |s|
    ensures forall i :: 0 <= i < |s| ==> r[i] == LowerChar(s[i])
  {
    seq(|s|, i requires 0 <= i < |s| => LowerChar(s[i]))
  }

  // ---------------------------------------------------------------------
  // allowed_file

  const AllowedExtensions: set<string> := {"pdf"}

  /** The second part of splitting once at the last '.': the dot-free
      suffix that follows the last '.' of the name. */
  function Extension(filename: string): (r: string)
    requires '.' in filename
    ensures |r| < |filename| && filename[|filename| - |r| - 1] == '.'
    ensures r == filename[|filename| - |r|..] && '.' !in r
  {
    filename[LastIndexOf(filename, '.') + 1..]
  }

  /** allowed_file: there is a '.' and the text after the last one, lower-cased, is an allowed extension. */
  function AllowedFile(filename: string): (r: bool)
    ensures '.' !in filename ==> !r
  {
    '.' in filename && ToLower(Extension(filename)) in AllowedExtensions
  }

  /** The last '.' of stem + "." + ext, where ext has none, is the one before ext. */
  lemma LastDotOfSplit(stem: string, ext: string)
    requires '.' !in ext
    ensures LastIndexOf(stem + "." + ext, '.') == |stem|
    ensures Extension(stem + "." + ext) == ext
  {
    var s := stem + "." + ext;
    assert s[|stem|] == '.';
    assert s[|stem| + 1..] == ext;
  }

  /** A name with a dot is accepted exactly when what follows its last dot
      lower-cases to an allowed extension. */
  lemma {:induction false} AllowedFileSplit(stem: string, ext: string)
    requires '.' !in ext
    ensures AllowedFile(stem + "." + ext) <==> ToLower(ext) in AllowedExtensions
  {
    LastDotOfSplit(stem, ext);
  }

  /** Lower-casing gives "pdf" exactly for the eight spellings of pdf in either case. */
  lemma LowerIsPdf(e: string)
    ensures ToLower(e) == "pdf" <==> |e| == 3 && e[0] in "pP" && e[1] in "dD" && e[2] in "fF"
  {
    if |e| == 3 && e[0] in "pP" && e[1] in "dD" && e[2] in "fF" {
      assert ToLower(e) == "pdf";
    }
  }

  /** a.PDF is accepted: the comparison ignores case. */
  lemma AllowedFileUpperCase()
    ensures AllowedFile("a.PDF")
  {
    AllowedFileSplit("a", "PDF");
    LowerIsPdf("PDF");
    assert "a" + "." + "PDF" == "a.PDF";
  }

  /** a.pdf.exe is refused: only the text after the last dot counts. */
  lemma AllowedFileLastDotOnly()
    ensures !AllowedFile("a.pdf.exe")
  {
    AllowedFileSplit("a.pdf", "exe");
    LowerIsPdf("exe");
    assert "a.pdf" + "." + "exe" == "a.pdf.exe";
  }

  /** a. is refused: the extension after the dot is empty. */
  lemma AllowedFileEmptyExtension()
    ensures !AllowedFile("a.")
  {
    AllowedFileSplit("a", "");
    LowerIsPdf("");
    assert "a" + "." + "" == "a.";
  }

  /** The last occurrence is the only index that holds c with no c after it. */
  lemma LastIndexOfUnique(s: string, c: char, k: nat)
    requires k < |s| && s[k] == c && c !in s[k + 1..]
    ensures LastIndexOf(s, c) == k
  {
  }

  /** The first occurrence is the only index that holds c with no c before it. */
  lemma IndexOfUnique(s: string, c: char, k: nat)
    requires k < |s| && s[k] == c && c !in s[..k]
    ensures IndexOf(s, c) == k
  {
  }

  lemma ToLowerSuffix(s: string, k: nat)
    requires k <= |s|
    ensures ToLower(s)[k..] == ToLower(s[k..])
  {
  }

  lemma ToLowerIdempotent(s: string)
    ensures ToLower(ToLower(s)) == ToLower(s)
  {
  }

  /** Lower-casing neither adds nor removes a '.'. */
  lemma DotInLower(s: string)
    ensures '.' in ToLower(s) <==> '.' in s
  {
    var low := ToLower(s);
    if '.' in s {
      var i :| 0 <= i < |s| && s[i] == '.';
      assert low[i] == '.';
    }
    if '.' in low {
      var i :| 0 <= i < |low| && low[i] == '.';
      assert s[i] == '.';
    }
  }

  /** Lower-casing the whole name first changes nothing: the check is case-insensitive. */
  lemma AllowedFileIgnoresCase(filename: string)
    ensures AllowedFile(ToLower(filename)) == AllowedFile(filename)
  {
    var low := ToLower(filename);
    DotInLower(filename);
    if '.' in filename {
      var r := LastIndexOf(filename, '.');
      ToLowerSuffix(filename, r + 1);
      DotInLower(filename[r + 1..]);
      assert low[r] == '.' && '.' !in low[r + 1..];
      LastIndexOfUnique(low, '.', r);
      assert Extension(filename) == filename[r + 1..];
      assert Extension(low) == low[r + 1..];
      assert Extension(low) == ToLower(Extension(filename));
      ToLowerIdempotent(filename[r + 1..]);
    }
  }

  // ---------------------------------------------------------------------
  // The brace slice in call_gemini_for_extraction

  /** Python's treatment of a slice bound for a sequence of length n. */
  function ClampIndex(i: int, n: nat): (r: nat)
    ensures r <= n
    ensures 0 <= i <= n ==> r == i
  {
    if i < 0 then (if i + n < 0 then 0 else i + n) else if i > n then n else i
  }

  /** s[start:end] */
  function PySlice(s: string, start: int, end: int): (r: string)
    ensures 0 <= start <= end <= |s| ==> r == s[start..end]
    ensures 0 <= end <= start ==> r == []
  {
    var lo, hi := ClampIndex(start, |s|), ClampIndex(end, |s|);
    if lo < hi then s[lo..hi] else []
  }

  /** The text handed to json.loads: from the first '{' through the last '}'.
      The guard json_end != -1 never fails, since rfind(...) + 1 >= 0, so the
      slice is taken exactly when the reply contains a '{'. */
  function JsonCandidate(text: string): (r: Option<string>)
    ensures r.Some? <==> '{' in text
    ensures r.Some? && r.value != [] ==> r.value[0] == '{' && r.value[|r.value| - 1] == '}'
    ensures r.Some? && '}' !in text ==> r.value == []
    ensures r.Some? && LastIndexOf(text, '}') < IndexOf(text, '{') ==> r.value == []
  {
    var jsonStart := IndexOf(text, '{');
    var jsonEnd := LastIndexOf(text, '}') + 1;
    if jsonStart != -1 && jsonEnd != -1 then Some(PySlice(text, jsonStart, jsonEnd)) else None
  }

  /** An object embedded in prose with no '{' before it and no '}' after it
      is recovered whole, whatever braces it holds inside. */
  lemma JsonCandidateRecovers(before: string, body: string, after: string)
    requires '{' !in before && '}' !in after
    ensures JsonCandidate(before + "{" + body + "}" + after) == Some("{" + body + "}")
  {
    var obj := "{" + body + "}";
    var text := before + obj + after;
    assert before + "{" + body + "}" + after == text;
    var a, b := |before|, |before| + |obj| - 1;
    assert text[..a] == before && text[a..b + 1] == obj && text[b + 1..] == after;
    assert text[a] == obj[0] == '{';
    assert text[b] == obj[|obj| - 1] == '}';
    IndexOfUnique(text, '{', a);
    LastIndexOfUnique(text, '}', b);
  }

  // ---------------------------------------------------------------------
  // The filter on the upload redirect

  /** The extracted fields handed on to the review page: every field whose
      value is not None, with its value unchanged. */
  function ForwardedFields(extracted: Record): (r: Record)
    ensures forall k :: k in r <==> k in extracted && extracted[k] != NoneVal
    ensures forall k :: k in r ==> r[k] == extracted[k]
  {
    map k | k in extracted && extracted[k] != NoneVal :: extracted[k]
  }

  /** Forwarding is invisible to dict.get(key), which yields None for a
      missing key, and forwarding twice is forwarding once. */
  lemma ForwardedFieldsLookups(extracted: Record, key: string)
    ensures Get(ForwardedFields(extracted), key, NoneVal) == Get(extracted, key, NoneVal)
    ensures ForwardedFields(ForwardedFields(extracted)) == ForwardedFields(extracted)
    ensures NoneVal !in ForwardedFields(extracted).Values
  {
  }

  // ---------------------------------------------------------------------
  // The defaulting step of review

  /** The nine financial fields of the review form, in order. */
  const FinancialKeys: seq<string> := [
    GrossSalary, "basic_salary", HraReceived, "rent_paid",
    Deduction80C, Deduction80D, StandardDeductionKey,
    ProfessionalTax, "tds"
  ]

  /** A field the review step treats as missing: absent, None or the empty string. */
  predicate Blank(form: Record, key: string)
    ensures Blank(form, key) <==> key !in form || form[key] == NoneVal || form[key] == EmptyStr
  {
    Get(form, key, NoneVal) in {NoneVal, EmptyStr}
  }

  /** The form after defaulting the given keys: each of them is present,
      blank ones are 0, and everything else is as it was. */
  function DefaultedKeys(form: Record, keys: seq<string>): (r: Record)
    ensures r.Keys == form.Keys + (set k | k in keys)
    ensures forall k :: k in keys ==> k in r && !Blank(r, k)
    ensures forall k :: k in keys && Blank(form, k) ==> r[k] == Num(0.0)
    ensures forall k :: k in form && !(k in keys && Blank(form, k)) ==> r[k] == form[k]
  {
    map k | k in form.Keys + (set k | k in keys) ::
      if k in keys && Blank(form, k) then Num(0.0) else form[k]
  }

  /** The form after the defaulting loop of review. */
  function DefaultedForm(form: Record): (r: Record)
    ensures r.Keys == form.Keys + (set k | k in FinancialKeys)
    ensures forall k :: k in FinancialKeys ==> k in r && !Blank(r, k)
    ensures forall k :: k in FinancialKeys && Blank(form, k) ==> r[k] == Num(0.0)
    ensures forall k :: k in form && !(k in FinancialKeys && Blank(form, k)) ==> r[k] == form[k]
  {
    DefaultedKeys(form, FinancialKeys)
  }

  /** One more key: write 0 over it when it is still blank. */
  lemma DefaultedKeysStep(form: Record, keys: seq<string>, key: string)
    ensures DefaultedKeys(form, keys + [key])
         == var m := DefaultedKeys(form, keys); if Blank(m, key) then m[key := Num(0.0)] else m
  {
    var m := DefaultedKeys(form, keys);
    var n := if Blank(m, key) then m[key := Num(0.0)] else m;
    var d := DefaultedKeys(form, keys + [key]);
    assert forall k :: k in keys + [key] <==> k in keys || k == key;
    assert d.Keys == n.Keys;
    forall k | k in d ensures d[k] == n[k] {
      if k == key {
        if key in keys {
          assert !Blank(m, key);
        }
      }
    }
  }

  /** The loop of review that writes 0 over each blank financial field in place. */
  method FillDefaults(form: Record) returns (reviewed: Record)
    ensures reviewed == DefaultedForm(form)
  {
    reviewed := form;
    assert DefaultedKeys(form, []) == form;
    for i := 0 to |FinancialKeys|
      invariant reviewed == DefaultedKeys(form, FinancialKeys[..i])
    {
      var key := FinancialKeys[i];
      assert FinancialKeys[..i + 1] == FinancialKeys[..i] + [key];
      DefaultedKeysStep(form, FinancialKeys[..i], key);
      if Get(reviewed, key, NoneVal) in {NoneVal, EmptyStr} {
        reviewed := reviewed[key := Num(0.0)];
      }
    }
    assert FinancialKeys[..|FinancialKeys|] == FinancialKeys;
  }

  /** Defaulting twice is defaulting once. */
  lemma DefaultedFormIdempotent(form: Record)
    ensures DefaultedForm(DefaultedForm(form)) == DefaultedForm(form)
  {
    var d := DefaultedForm(form);
    assert DefaultedForm(d).Keys == d.Keys;
    forall k | k in d ensures DefaultedForm(d)[k] == d[k] {
      if k in FinancialKeys {
        assert !Blank(d, k);
      }
    }
  }

  /** Defaulting keeps every normalised figure the calculator reads, except a
      blank standard deduction, which becomes 0 instead of the calculator's 50000. */
  lemma DefaultedFormFigures(form: Record)
    ensures Income(DefaultedForm(form)) == Income(form)
    ensures OldDeductions(DefaultedForm(form))
         == OldDeductions(form) - StandardDeduction(form) + StandardDeduction(DefaultedForm(form))
    ensures StandardDeduction(DefaultedForm(form))
         == if Blank(form, StandardDeductionKey) then 0.0 else StandardDeduction(form)
  {
    var d := DefaultedForm(form);
    assert GrossSalary in FinancialKeys && Deduction80C in FinancialKeys && Deduction80D in FinancialKeys;
    assert ProfessionalTax in FinancialKeys && HraReceived in FinancialKeys && StandardDeductionKey in FinancialKeys;
    assert Field(d, GrossSalary) == Field(form, GrossSalary);
    assert Field(d, Deduction80C) == Field(form, Deduction80C);
    assert Field(d, Deduction80D) == Field(form, Deduction80D);
    assert Field(d, ProfessionalTax) == Field(form, ProfessionalTax);
    assert Field(d, HraReceived) == Field(form, HraReceived);
  }

  /** On the review path a blank standard deduction reaches the calculator as 0:
      both regimes compute as if the form had said 0 explicitly. */
  lemma ReviewBlankStandardDeductionIsZero(form: Record)
    requires Blank(form, StandardDeductionKey)
    ensures StandardDeduction(DefaultedForm(form)) == 0.0
    ensures NewRegimeTax(DefaultedForm(form)) == NewRegimeTax(form[StandardDeductionKey := Num(0.0)])
    ensures CalculateOldRegime(DefaultedForm(form)) == CalculateOldRegime(form[StandardDeductionKey := Num(0.0)])
  {
    DefaultedFormFigures(form);
    var z := form[StandardDeductionKey := Num(0.0)];
    assert Income(z) == Income(form);
    assert OldDeductions(z) == OldDeductions(form) - StandardDeduction(form);
  }

  /** A form with only a gross salary of 400000: the calculator alone would
      deduct 50000 (new regime tax 20800), the review path deducts 0 (26000). */
  lemma ReviewPathExample()
    ensures NewRegimeTax(map[GrossSalary := Num(400000.0)]) == 20800.0
    ensures NewRegimeTax(DefaultedForm(map[GrossSalary := Num(400000.0)])) == 26000.0
  {
    var form := map[GrossSalary := Num(400000.0)];
    assert StandardDeductionKey != GrossSalary;
    ReviewBlankStandardDeductionIsZero(form);
    NewRegimeBracketTable(350000.0);
    NewRegimeBracketTable(400000.0);
    RoundCentsExact(2080000);
    RoundCentsExact(2600000);
  }

  /** The regime the user picked, "new" when the form names none. */
  function SelectedRegime(field: Option<string>): (r: string)
    ensures field.None? ==> r == "new"
    ensures field.Some? ==> r == field.value
  {
    match field
    case None => "new"
    case Some(s) => s
  }

  const SessionIdKey := "session_id"

  /** The computing part of a review submission: default the form, stamp the
      session id (a uuid string, which float() rejects), read the selected
      regime and compare the two regimes on the defaulted form. */
  method Review(form: Record, selectedField: Option<string>) returns (reviewed: Record, comparison: Comparison)
    ensures reviewed == DefaultedForm(form)[SessionIdKey := Unparsable]
    ensures comparison.taxOldRegime == CalculateOldRegime(reviewed)
    ensures comparison.taxNewRegime == NewRegimeTax(reviewed)
    ensures comparison.bestRegime == Old <==> comparison.taxOldRegime < comparison.taxNewRegime
    ensures comparison.selectedRegime == SelectedRegime(selectedField)
    ensures Blank(form, StandardDeductionKey) ==> StandardDeduction(reviewed) == 0.0
  {
    reviewed := FillDefaults(form);
    reviewed := reviewed[SessionIdKey := Unparsable];
    var selected := SelectedRegime(selectedField);
    comparison := CompareRegimes(reviewed, selected);
    if Blank(form, StandardDeductionKey) {
      ReviewBlankStandardDeductionIsZero(form);
      assert StandardDeduction(reviewed) == StandardDeduction(DefaultedForm(form));
    }
  }
}
