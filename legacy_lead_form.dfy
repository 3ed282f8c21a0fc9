/**
 * The older lead form: one state record edited field by field, a multiple
 * select for visas of interest, a single résumé file, and the multipart body
 * it posts.
 */
module LegacyLeadForm {
  import opened Leads
  import opened Strings
  import opened Multipart
  import JsonText

  // ---------------------------------------------------------------------------
  // State and its updates
  // ---------------------------------------------------------------------------

  datatype FormState = FormState(
    firstName: string,
    lastName: string,
    email: string,
    linkedInProfile: string,
    visasOfInterest: seq<string>,
    resume: Option<File>,
    additionalInfo: string)

  /** The state the form starts in: empty text, no visa, no résumé. */
  const InitialState := FormState("", "", "", "", [], None, "")

  /** The text inputs, each wired to `handleChange` through its `name`. */
  datatype TextField = FirstName | LastName | Email | LinkedInProfile | AdditionalInfo

  function TextOf(s: FormState, f: TextField): string
  {
    match f
    case FirstName => s.firstName
    case LastName => s.lastName
    case Email => s.email
    case LinkedInProfile => s.linkedInProfile
    case AdditionalInfo => s.additionalInfo
  }

  /** `{ ...prev, [name]: value }`: the named field takes the value, every other field is kept. */
  function HandleChange(s: FormState, f: TextField, value: string): (r: FormState)
    ensures TextOf(r, f) == value
    ensures forall g :: g != f ==> TextOf(r, g) == TextOf(s, g)
    ensures r.visasOfInterest == s.visasOfInterest && r.resume == s.resume
  {
    match f
    case FirstName => s.(firstName := value)
    case LastName => s.(lastName := value)
    case Email => s.(email := value)
    case LinkedInProfile => s.(linkedInProfile := value)
    case AdditionalInfo => s.(additionalInfo := value)
  }

  /** A later edit of the same field replaces an earlier one; edits of different fields commute. */
  lemma ChangesCompose(s: FormState, f: TextField, g: TextField, a: string, b: string)
    ensures HandleChange(HandleChange(s, f, a), f, b) == HandleChange(s, f, b)
    ensures f != g ==> HandleChange(HandleChange(s, f, a), g, b) == HandleChange(HandleChange(s, g, b), f, a)
  {
  }

  /** An `<option>` of the visa select. */
  datatype SelectOption = SelectOption(value: string, selected: bool)

  /** The options the select offers, all unselected. */
  const VisaOptions := [
    SelectOption("h1b", false), SelectOption("l1", false), SelectOption("o1", false),
    SelectOption("eb1", false), SelectOption("eb2", false), SelectOption("eb3", false)]

  /** The values of the selected options, in option order. */
  function SelectedValues(options: seq<SelectOption>): (values: seq<string>)
    ensures |values| <= |options|
    ensures forall v :: v in values ==> exists i :: 0 <= i < |options| && options[i].selected && options[i].value == v
    decreases |options|
  {
    if options == [] then []
    else
      var n := |options| - 1;
      var prefix := SelectedValues(options[..n]);
      assert forall i :: 0 <= i < n ==> options[..n][i] == options[i];
      prefix + (if options[n].selected then [options[n].value] else [])
  }

  /** Every selected option's value is kept. */
  lemma {:induction false} SelectedValuesComplete(options: seq<SelectOption>, i: nat)
    requires i < |options| && options[i].selected
    ensures options[i].value in SelectedValues(options)
    decreases |options|
  {
    var n := |options| - 1;
    if i < n {
      SelectedValuesComplete(options[..n], i);
    }
  }

  /** Option order is kept: the selection from a longer list extends the selection from its start. */
  lemma {:induction false} SelectedValuesAppend(a: seq<SelectOption>, b: seq<SelectOption>)
    ensures SelectedValues(a + b) == SelectedValues(a) + SelectedValues(b)
    decreases |b|
  {
    if b == [] {
      assert a + b == a;
    } else {
      var n := |b| - 1;
      AppendLast(a, b);
      SelectedValuesAppend(a, b[..n]);
    }
  }

  /** The number of selected options. */
  function SelectedCount(options: seq<SelectOption>): nat
    decreases |options|
  {
    if options == [] then 0
    else SelectedCount(options[..|options| - 1]) + (if options[|options| - 1].selected then 1 else 0)
  }

  lemma {:induction false} SelectedValuesCount(options: seq<SelectOption>)
    ensures |SelectedValues(options)| == SelectedCount(options)
    decreases |options|
  {
    if options != [] {
      SelectedValuesCount(options[..|options| - 1]);
    }
  }

  /** `handleVisaChange`: collect the selected options' values and store them as the visas. */
  method HandleVisaChange(s: FormState, options: seq<SelectOption>) returns (r: FormState)
    ensures r == s.(visasOfInterest := SelectedValues(options))
  {
    var selected := [];
    var i := 0;
    while i < |options|
      invariant 0 <= i <= |options|
      invariant selected == SelectedValues(options[..i])
    {
      if options[i].selected {
        selected := selected + [options[i].value];
      }
      assert options[..i + 1][..i] == options[..i];
      i := i + 1;
    }
    assert options[..i] == options;
    r := s.(visasOfInterest := selected);
  }

  /** `handleFileChange`: the first chosen file, or nothing when none was chosen. */
  function HandleFileChange(s: FormState, files: seq<File>): (r: FormState)
    ensures r.resume.None? <==> files == []
    ensures r.resume.Some? ==> r.resume.value == files[0]
    ensures r == s.(resume := r.resume)
  {
    s.(resume := if files == [] then None else Some(files[0]))
  }

  // ---------------------------------------------------------------------------
  // Payload
  // ---------------------------------------------------------------------------

  /** A value of the state record as `Object.entries` yields it. */
  datatype StateValue = Str(text: string) | Strs(items: seq<string>) | MaybeFile(file: Option<File>)

  /** `Object.entries(formData)`: the fields in the order the record was created with. */
  function StateEntries(s: FormState): seq<(string, StateValue)>
  {
    [ ("firstName", Str(s.firstName)),
      ("lastName", Str(s.lastName)),
      ("email", Str(s.email)),
      ("linkedInProfile", Str(s.linkedInProfile)),
      ("visasOfInterest", Strs(s.visasOfInterest)),
      ("resume", MaybeFile(s.resume)),
      ("additionalInfo", Str(s.additionalInfo)) ]
  }

  /** `JSON.stringify(value)`; a File has no own enumerable properties. */
  function Json(value: StateValue): string
  {
    match value
    case Str(t) => JsonText.Quote(t)
    case Strs(xs) => JsonText.StringArray(xs)
    case MaybeFile(None) => "null"
    case MaybeFile(Some(_)) => "{}"
  }

  /** What `FormData.append(key, value)` stores: a file as is, anything else as its string form. */
  function Appended(value: StateValue): Part
  {
    match value
    case Str(t) => Text(t)
    case Strs(xs) => Text(Join(xs, ","))
    case MaybeFile(None) => Text("null")
    case MaybeFile(Some(f)) => Upload(f)
  }

  /** JavaScript truthiness: the empty string and null are falsy, an array always truthy. */
  predicate IsTruthy(value: StateValue)
  {
    match value
    case Str(t) => t != ""
    case Strs(_) => true
    case MaybeFile(o) => o.Some?
  }

  /** What one pass of the `forEach` appends for a `[key, value]` pair. */
  function EntryStep(key: string, value: StateValue): seq<Entry>
  {
    if key == "visasOfInterest" then [Entry(key, Text(Json(value)))]
    else if key == "resume" then (if IsTruthy(value) then [Entry(key, Appended(value))] else [])
    else [Entry(key, Appended(value))]
  }

  /** The entries the `forEach` appends: one per pair, except a falsy `resume`, which is skipped. */
  function EntryParts(entries: seq<(string, StateValue)>): (parts: seq<Entry>)
    ensures |parts| <= |entries|
    decreases |entries|
  {
    if entries == [] then []
    else
      var n := |entries| - 1;
      EntryParts(entries[..n]) + EntryStep(entries[n].0, entries[n].1)
  }

  /** The body `handleSubmit` posts. */
  function Payload(s: FormState): seq<Entry>
  {
    EntryParts(StateEntries(s))
  }

  /** `handleSubmit` up to the request: the `forEach` over the state's entries. */
  method BuildPayload(s: FormState) returns (formPayload: seq<Entry>)
    ensures formPayload == Payload(s)
  {
    formPayload := [];
    var entries := StateEntries(s);
    var i := 0;
    while i < |entries|
      invariant 0 <= i <= |entries|
      invariant formPayload == EntryParts(entries[..i])
    {
      var (key, value) := entries[i];
      if key == "visasOfInterest" {
        formPayload := formPayload + [Entry(key, Text(Json(value)))];
      } else if key == "resume" {
        if IsTruthy(value) {
          formPayload := formPayload + [Entry(key, Appended(value))];
        }
      } else {
        formPayload := formPayload + [Entry(key, Appended(value))];
      }
      assert entries[..i + 1][..i] == entries[..i];
      i := i + 1;
    }
    assert entries[..i] == entries;
  }

  function ResumeParts(resume: Option<File>): seq<Entry>
  {
    if resume.Some? then [Entry("resume", Upload(resume.value))] else []
  }

  /** The pairs before `k` append what the pairs before `k - 1` append, then pair `k - 1`'s step. */
  lemma EntryPartsLast(entries: seq<(string, StateValue)>, k: nat)
    requires 0 < k <= |entries|
    ensures EntryParts(entries[..k]) == EntryParts(entries[..k - 1]) + EntryStep(entries[k - 1].0, entries[k - 1].1)
  {
    assert entries[..k][..k - 1] == entries[..k - 1];
  }

  /** The entries of the first five pairs, which are always appended. */
  function TextParts(s: FormState): seq<Entry>
  {
    [ Entry("firstName", Text(s.firstName)),
      Entry("lastName", Text(s.lastName)),
      Entry("email", Text(s.email)),
      Entry("linkedInProfile", Text(s.linkedInProfile)),
      Entry("visasOfInterest", Text(JsonText.StringArray(s.visasOfInterest))) ]
  }

  /** Each of the first five pairs appends its own entry: text as typed, the visas as a JSON array. */
  lemma TextStep(s: FormState, k: nat)
    requires k < 5
    ensures EntryStep(StateEntries(s)[k].0, StateEntries(s)[k].1) == [TextParts(s)[k]]
  {
    var e := StateEntries(s);
    if k < 4 {
      assert e[k].0 != "visasOfInterest" && e[k].0 != "resume";
    }
  }

  /** The first `k` of those pairs append the first `k` text entries. */
  lemma {:induction false} TextPrefixShape(s: FormState, k: nat)
    requires k <= 5
    ensures EntryParts(StateEntries(s)[..k]) == TextParts(s)[..k]
  {
    if k == 0 {
      assert StateEntries(s)[..0] == [];
    } else {
      TextPrefixShape(s, k - 1);
      EntryPartsLast(StateEntries(s), k);
      TextStep(s, k - 1);
      TakeLast(TextParts(s), k);
    }
  }

  /**
   * The text fields are posted as typed, the visas as a JSON array, the résumé
   * only when one was chosen, in the order the state record lists them.
   */
  lemma PayloadShape(s: FormState)
    ensures Payload(s) == TextParts(s) + ResumeParts(s.resume) + [Entry("additionalInfo", Text(s.additionalInfo))]
  {
    var e := StateEntries(s);
    ResumeShape(s);
    EntryPartsLast(e, 7);
    assert EntryStep(e[6].0, e[6].1) == [Entry("additionalInfo", Text(s.additionalInfo))];
    assert e[..7] == e;
  }

  /** After the five text pairs, the résumé pair appends the file only when one was chosen. */
  lemma ResumeShape(s: FormState)
    ensures EntryParts(StateEntries(s)[..6]) == TextParts(s) + ResumeParts(s.resume)
  {
    var e := StateEntries(s);
    TextPrefixShape(s, 5);
    assert TextParts(s)[..5] == TextParts(s);
    EntryPartsLast(e, 6);
    assert EntryStep(e[5].0, e[5].1) == ResumeParts(s.resume);
  }

  /** The server can read the visas back from the body: the JSON text decodes to the selection. */
  lemma VisasRoundTrip(s: FormState)
    ensures Get(Payload(s), "visasOfInterest").Some?
    ensures Get(Payload(s), "visasOfInterest").value.Text?
    ensures JsonText.ParseStringArray(Get(Payload(s), "visasOfInterest").value.text) == Some(s.visasOfInterest)
  {
    PayloadShape(s);
    GetAt(Payload(s), 4, "visasOfInterest");
    JsonText.StringArrayRoundTrip(s.visasOfInterest);
  }

  /** The body never carries the keys the newer form uses for the website, the visa flags and the files. */
  lemma PayloadKeys(s: FormState)
    ensures Get(Payload(s), "website") == None
    ensures Get(Payload(s), "visaCategoryO1") == None
    ensures GetAll(Payload(s), "files") == []
  {
    PayloadShape(s);
    var p := Payload(s);
    assert forall i :: 0 <= i < |p| ==> p[i].key != "website" && p[i].key != "visaCategoryO1" && p[i].key != "files" by {
      forall i | 0 <= i < |p|
        ensures p[i].key != "website" && p[i].key != "visaCategoryO1" && p[i].key != "files"
      {
        assert p[i].key in {"firstName", "lastName", "email", "linkedInProfile", "visasOfInterest", "resume", "additionalInfo"};
      }
    }
    GetSpec(p, "website");
    GetSpec(p, "visaCategoryO1");
    GetAllAbsent(p, "files");
  }

  // ---------------------------------------------------------------------------
  // Submit state
  // ---------------------------------------------------------------------------

  /** How the request went: an ok response, a response that is not ok, or a thrown error. */
  datatype SubmitOutcome = Ok | NotOk | Thrown(message: string)

  const SubmitFailedMessage := "Failed to submit lead information"
  const RetryMessage := "Something went wrong. Please try again."
  const ThankYouPage := "/lead-form/thank-you"

  function SubmitError(outcome: SubmitOutcome): (message: string)
    requires !outcome.Ok?
    ensures message != ""
    ensures outcome.NotOk? ==> message == SubmitFailedMessage
    ensures outcome.Thrown? && outcome.message != "" ==> message == outcome.message
    ensures outcome.Thrown? && outcome.message == "" ==> message == RetryMessage
  {
    match outcome
    case NotOk => SubmitFailedMessage
    case Thrown(m) => if m != "" then m else RetryMessage
  }

  class LegacyLeadFormView {
    var formData: FormState
    var isSubmitting: bool
    var error: string
    /** The page the router was pushed to, if any. */
    var navigatedTo: Option<string>

    constructor ()
      ensures formData == InitialState && !isSubmitting && error == "" && navigatedTo.None?
    {
      formData := InitialState;
      isSubmitting := false;
      error := "";
      navigatedTo := None;
    }

    method Change(f: TextField, value: string)
      modifies this
      ensures formData == HandleChange(old(formData), f, value)
      ensures isSubmitting == old(isSubmitting) && error == old(error) && navigatedTo == old(navigatedTo)
    {
      formData := HandleChange(formData, f, value);
    }

    method VisaChange(options: seq<SelectOption>)
      modifies this
      ensures formData == old(formData).(visasOfInterest := SelectedValues(options))
      ensures isSubmitting == old(isSubmitting) && error == old(error) && navigatedTo == old(navigatedTo)
    {
      formData := HandleVisaChange(formData, options);
    }

    method FileChange(files: seq<File>)
      modifies this
      ensures formData == HandleFileChange(old(formData), files)
      ensures isSubmitting == old(isSubmitting) && error == old(error) && navigatedTo == old(navigatedTo)
    {
      formData := HandleFileChange(formData, files);
    }

    /** `handleSubmit` up to the `await`: mark the form busy, clear the old error, build the body. */
    method BeginSubmit() returns (formPayload: seq<Entry>)
      modifies this
      ensures isSubmitting && error == ""
      ensures formData == old(formData) && navigatedTo == old(navigatedTo)
      ensures formPayload == Payload(formData)
    {
      isSubmitting := true;
      error := "";
      formPayload := BuildPayload(formData);
    }

    /** `handleSubmit` after the `await`: navigate on success, record the error otherwise, never stay busy. */
    method FinishSubmit(outcome: SubmitOutcome)
      modifies this
      ensures !isSubmitting && formData == old(formData)
      ensures outcome.Ok? ==> navigatedTo == Some(ThankYouPage) && error == old(error)
      ensures !outcome.Ok? ==> navigatedTo == old(navigatedTo) && error == SubmitError(outcome)
    {
      if outcome.Ok? {
        navigatedTo := Some(ThankYouPage);
      } else {
        error := SubmitError(outcome);
      }
      isSubmitting := false;
    }

    /** A whole submission: the body sent, then the outcome's effect on the state. */
    method Submit(outcome: SubmitOutcome) returns (sent: seq<Entry>)
      modifies this
      ensures sent == Payload(old(formData)) && formData == old(formData)
      ensures !isSubmitting
      ensures outcome.Ok? ==> navigatedTo == Some(ThankYouPage) && error == ""
      ensures !outcome.Ok? ==> navigatedTo == old(navigatedTo) && error == SubmitError(outcome) && error != ""
    {
      sent := BeginSubmit();
      FinishSubmit(outcome);
    }
  }
}
