/**
 * The public lead form: its default values, the validation rules of its
 * fields, the multipart payload it posts and the submit state around the
 * request.
 */
module LeadForm {
  import opened Leads
  import opened Multipart

  // ---------------------------------------------------------------------------
  // Values
  // ---------------------------------------------------------------------------

  /** The `files` field: never touched (undefined), cleared (null), or a chosen FileList. */
  datatype FileSelection = Unset | Cleared | Selected(files: seq<File>)

  datatype FormValues = FormValues(
    firstName: string,
    lastName: string,
    email: string,
    country: string,
    website: string,
    message: string,
    visaCategoryO1: bool,
    visaCategoryEB1A: bool,
    visaCategoryEB2NIW: bool,
    visaCategoryUnknown: bool,
    files: FileSelection)

  /** `defaultValues`: empty text, no visa category, no file list. */
  const DefaultValues := FormValues("", "", "", "", "", "", false, false, false, false, Unset)

  // ---------------------------------------------------------------------------
  // Validation rules
  // ---------------------------------------------------------------------------

  predicate AsciiLetter(c: char)
  {
    'A' <= c <= 'Z' || 'a' <= c <= 'z'
  }

  predicate Digit(c: char)
  {
    '0' <= c <= '9'
  }

  /** `[A-Z0-9._%+-]` under the `i` flag. */
  predicate LocalChar(c: char)
  {
    AsciiLetter(c) || Digit(c) || c == '.' || c == '_' || c == '%' || c == '+' || c == '-'
  }

  /** `[A-Z0-9.-]` under the `i` flag. */
  predicate DomainChar(c: char)
  {
    AsciiLetter(c) || Digit(c) || c == '.' || c == '-'
  }

  /**
   * `s` matches the email pattern with its `@` at `at` and the `.` before the
   * top-level domain at `dot`: a non-empty local part, a non-empty domain and
   * at least two letters after the dot.
   */
  predicate EmailSplit(s: string, at: int, dot: int)
  {
    && 0 < at && at + 1 < dot && dot + 2 < |s|
    && s[at] == '@' && s[dot] == '.'
    && (forall i :: 0 <= i < at ==> LocalChar(s[i]))
    && (forall i :: at < i < dot ==> DomainChar(s[i]))
    && (forall i :: dot < i < |s| ==> AsciiLetter(s[i]))
  }

  /** `/^[A-Z0-9._%+-]+@[A-Z0-9.-]+\.[A-Z]{2,}$/i` */
  predicate ValidEmail(s: string)
  {
    exists at, dot | 0 <= at < |s| && 0 <= dot < |s| :: EmailSplit(s, at, dot)
  }

  /** An accepted email has exactly one `@`, since no character class admits one. */
  lemma ValidEmailHasOneAt(s: string)
    requires ValidEmail(s)
    ensures exists at :: 0 <= at < |s| && s[at] == '@' && forall i :: 0 <= i < |s| && i != at ==> s[i] != '@'
  {
    var at, dot :| 0 <= at < |s| && 0 <= dot < |s| && EmailSplit(s, at, dot);
    assert EmailSplit(s, at, dot);
    assert forall i :: 0 <= i < |s| && i != at ==> s[i] != '@' by {
      forall i | 0 <= i < |s| && i != at ensures s[i] != '@' {
        if i < at {
          assert LocalChar(s[i]);
        } else if i < dot {
          assert DomainChar(s[i]);
        } else if i > dot {
          assert AsciiLetter(s[i]);
        }
      }
    }
  }

  /** Any non-empty local part, `@`, non-empty domain, `.` and two or more letters is accepted. */
  lemma EmailFromParts(local: string, domain: string, tld: string)
    requires local != [] && forall i :: 0 <= i < |local| ==> LocalChar(local[i])
    requires domain != [] && forall i :: 0 <= i < |domain| ==> DomainChar(domain[i])
    requires |tld| >= 2 && forall i :: 0 <= i < |tld| ==> AsciiLetter(tld[i])
    ensures ValidEmail(local + "@" + domain + "." + tld)
  {
    var s := local + "@" + domain + "." + tld;
    var at, dot := |local|, |local| + 1 + |domain|;
    forall i | 0 <= i < at ensures LocalChar(s[i]) {
      assert s[i] == local[i];
    }
    forall i | at < i < dot ensures DomainChar(s[i]) {
      assert s[i] == domain[i - at - 1];
    }
    forall i | dot < i < |s| ensures AsciiLetter(s[i]) {
      assert s[i] == tld[i - dot - 1];
    }
    assert EmailSplit(s, at, dot);
  }

  /** An `@` with no `.` anywhere after it is refused: the domain needs a dot. */
  lemma EmailWithoutDotAfterAt(s: string, k: nat)
    requires k < |s| && s[k] == '@'
    requires forall i :: k < i < |s| ==> s[i] != '.'
    ensures !ValidEmail(s)
  {
    forall at, dot | 0 <= at < |s| && 0 <= dot < |s| ensures !EmailSplit(s, at, dot) {
      assert !LocalChar(s[k]) && !DomainChar(s[k]) && !AsciiLetter(s[k]);
    }
  }

  /** Fewer than two characters after the last `.`, or a non-letter among them, is refused. */
  lemma EmailShortTopLevelDomain(s: string, k: nat)
    requires k < |s| && s[k] == '.'
    requires forall i :: k < i < |s| ==> s[i] != '.'
    requires |s| - k - 1 < 2 || exists i :: k < i < |s| && !AsciiLetter(s[i])
    ensures !ValidEmail(s)
  {
    forall at, dot | 0 <= at < |s| && 0 <= dot < |s| ensures !EmailSplit(s, at, dot) {
      assert !AsciiLetter(s[k]);
    }
  }

  /** `[\da-z.-]` */
  predicate HostChar(c: char)
  {
    Digit(c) || 'a' <= c <= 'z' || c == '.' || c == '-'
  }

  /** `[a-z.]` */
  predicate TldChar(c: char)
  {
    'a' <= c <= 'z' || c == '.'
  }

  /** `[/\w .-]`, where `\w` is `[A-Za-z0-9_]`. */
  predicate PathChar(c: char)
  {
    c == '/' || AsciiLetter(c) || Digit(c) || c == '_' || c == ' ' || c == '.' || c == '-'
  }

  /**
   * `r` is host `.` tld path with the `.` at `dot` and the top-level part
   * ending at `tldEnd`: a non-empty host, two to six top-level characters and
   * any number of path characters.
   */
  predicate WebsiteSplit(r: string, dot: int, tldEnd: int)
  {
    && 0 < dot && dot + 3 <= tldEnd <= dot + 7 && tldEnd <= |r|
    && r[dot] == '.'
    && (forall i :: 0 <= i < dot ==> HostChar(r[i]))
    && (forall i :: dot < i < tldEnd ==> TldChar(r[i]))
    && (forall i :: tldEnd <= i < |r| ==> PathChar(r[i]))
  }

  /**
   * The website pattern after its optional scheme. The nested repetition
   * `([/\w .-]*)*` accepts exactly the strings `[/\w .-]*` accepts, and the
   * final optional `/` is itself a path character, so one run of path
   * characters describes both.
   */
  predicate WebsiteRest(r: string)
  {
    exists dot, tldEnd | 0 <= dot < |r| && 0 <= tldEnd <= |r| :: WebsiteSplit(r, dot, tldEnd)
  }

  /** `/^(https?:\/\/)?([\da-z.-]+)\.([a-z.]{2,6})([/\w .-]*)*\/?$/` */
  predicate ValidWebsite(s: string)
  {
    || WebsiteRest(s)
    || ("http://" <= s && WebsiteRest(s[7..]))
    || ("https://" <= s && WebsiteRest(s[8..]))
  }

  /** Host, `.`, two to six top-level characters and a path is accepted, with or without a scheme. */
  lemma WebsiteFromParts(host: string, tld: string, path: string)
    requires host != [] && forall i :: 0 <= i < |host| ==> HostChar(host[i])
    requires 2 <= |tld| <= 6 && forall i :: 0 <= i < |tld| ==> TldChar(tld[i])
    requires forall i :: 0 <= i < |path| ==> PathChar(path[i])
    ensures ValidWebsite(host + "." + tld + path)
    ensures ValidWebsite("http://" + (host + "." + tld + path))
    ensures ValidWebsite("https://" + (host + "." + tld + path))
  {
    WebsiteRestFromParts(host, tld, path);
    SchemeThenRest("http://", host + "." + tld + path);
    SchemeThenRest("https://", host + "." + tld + path);
  }

  lemma SchemeThenRest(scheme: string, r: string)
    ensures scheme <= scheme + r && (scheme + r)[|scheme|..] == r
  {
  }

  lemma WebsiteRestFromParts(host: string, tld: string, path: string)
    requires host != [] && forall i :: 0 <= i < |host| ==> HostChar(host[i])
    requires 2 <= |tld| <= 6 && forall i :: 0 <= i < |tld| ==> TldChar(tld[i])
    requires forall i :: 0 <= i < |path| ==> PathChar(path[i])
    ensures WebsiteRest(host + "." + tld + path)
  {
    var r := host + "." + tld + path;
    var dot, tldEnd := |host|, |host| + 1 + |tld|;
    forall i | 0 <= i < dot ensures HostChar(r[i]) {
      assert r[i] == host[i];
    }
    forall i | dot < i < tldEnd ensures TldChar(r[i]) {
      assert r[i] == tld[i - dot - 1];
    }
    forall i | tldEnd <= i < |r| ensures PathChar(r[i]) {
      assert r[i] == path[i - tldEnd];
    }
    assert WebsiteSplit(r, dot, tldEnd);
  }

  /** Without a `.` there is no top-level domain, so nothing is accepted. */
  lemma WebsiteWithoutDot(s: string)
    requires '.' !in s
    ensures !ValidWebsite(s)
  {
    NoDotNoRest(s);
    if |s| >= 7 {
      NoDotNoRest(s[7..]);
    }
    if |s| >= 8 {
      NoDotNoRest(s[8..]);
    }
  }

  lemma NoDotNoRest(r: string)
    requires '.' !in r
    ensures !WebsiteRest(r)
  {
  }

  datatype FieldError = FieldError(field: string, message: string)

  /** A rule with `required` only. */
  function RequiredRule(field: string, value: string, requiredMessage: string): (errors: seq<FieldError>)
    ensures errors == [] <==> value != ""
    ensures errors != [] ==> errors == [FieldError(field, requiredMessage)]
  {
    if value == "" then [FieldError(field, requiredMessage)] else []
  }

  /** A rule with `required` and a `pattern`, which is only checked on a non-empty value. */
  function PatternRule(field: string, value: string, matches: bool, requiredMessage: string, patternMessage: string): (errors: seq<FieldError>)
    ensures errors == [] <==> value != "" && matches
    ensures value == "" ==> errors == [FieldError(field, requiredMessage)]
    ensures value != "" && !matches ==> errors == [FieldError(field, patternMessage)]
  {
    if value == "" then [FieldError(field, requiredMessage)]
    else if !matches then [FieldError(field, patternMessage)]
    else []
  }

  /** The error shown under each field, in form order; `country` and `message` have no rules. */
  function Validate(v: FormValues): (errors: seq<FieldError>)
    ensures errors == [] <==>
              v.firstName != "" && v.lastName != "" && ValidEmail(v.email) && ValidWebsite(v.website)
    ensures |errors| <= 4
  {
    RequiredRule("firstName", v.firstName, "First Name is required")
    + RequiredRule("lastName", v.lastName, "Last Name is required")
    + PatternRule("email", v.email, ValidEmail(v.email), "Email is required", "Invalid email address")
    + PatternRule("website", v.website, ValidWebsite(v.website),
                  "LinkedIn / Personal Website URL is required", "Please enter a valid URL")
  }

  /** The four rules, each of whose errors names its own field. */
  lemma ValidateParts(v: FormValues)
    ensures
      var a := RequiredRule("firstName", v.firstName, "First Name is required");
      var b := RequiredRule("lastName", v.lastName, "Last Name is required");
      var c := PatternRule("email", v.email, ValidEmail(v.email), "Email is required", "Invalid email address");
      var d := PatternRule("website", v.website, ValidWebsite(v.website),
                           "LinkedIn / Personal Website URL is required", "Please enter a valid URL");
      && Validate(v) == a + b + c + d
      && (forall e :: e in a ==> |e.field| == 9)
      && (forall e :: e in b ==> |e.field| == 8)
      && (forall e :: e in c ==> |e.field| == 5)
      && (forall e :: e in d ==> |e.field| == 7)
  {
  }

  /** Each name message is shown exactly when its field is empty. */
  lemma ValidateNameMessages(v: FormValues)
    ensures FieldError("firstName", "First Name is required") in Validate(v) <==> v.firstName == ""
    ensures FieldError("lastName", "Last Name is required") in Validate(v) <==> v.lastName == ""
  {
    ValidateParts(v);
  }

  /** The email field shows the required message when empty and the pattern message when it does not match. */
  lemma ValidateEmailMessages(v: FormValues)
    ensures FieldError("email", "Email is required") in Validate(v) <==> v.email == ""
    ensures FieldError("email", "Invalid email address") in Validate(v) <==> v.email != "" && !ValidEmail(v.email)
  {
    ValidateParts(v);
  }

  /** The website field shows the required message when empty and the pattern message when it does not match. */
  lemma ValidateWebsiteMessages(v: FormValues)
    ensures FieldError("website", "LinkedIn / Personal Website URL is required") in Validate(v) <==> v.website == ""
    ensures FieldError("website", "Please enter a valid URL") in Validate(v) <==> v.website != "" && !ValidWebsite(v.website)
  {
    ValidateParts(v);
  }

  /** The untouched form fails exactly the four required rules. */
  lemma DefaultsFailRequired()
    ensures Validate(DefaultValues) == [
      FieldError("firstName", "First Name is required"),
      FieldError("lastName", "Last Name is required"),
      FieldError("email", "Email is required"),
      FieldError("website", "LinkedIn / Personal Website URL is required")]
  {
  }

  /** Country, message, the visa categories and the files never affect validation. */
  lemma UnruledFieldsNeverFail(v: FormValues, w: FormValues)
    requires v.firstName == w.firstName && v.lastName == w.lastName
    requires v.email == w.email && v.website == w.website
    ensures Validate(v) == Validate(w)
  {
  }

  // ---------------------------------------------------------------------------
  // Payload
  // ---------------------------------------------------------------------------

  /** A value of the submitted data object as `Object.entries` yields it. */
  datatype FieldValue = TextValue(text: string) | FlagValue(flag: bool) | Missing | FileListValue(files: seq<File>)

  /** `Object.entries(data)`: the fields in declaration order, `files` last. */
  function FieldEntries(v: FormValues): seq<(string, FieldValue)>
  {
    [ ("firstName", TextValue(v.firstName)),
      ("lastName", TextValue(v.lastName)),
      ("email", TextValue(v.email)),
      ("country", TextValue(v.country)),
      ("website", TextValue(v.website)),
      ("message", TextValue(v.message)),
      ("visaCategoryO1", FlagValue(v.visaCategoryO1)),
      ("visaCategoryEB1A", FlagValue(v.visaCategoryEB1A)),
      ("visaCategoryEB2NIW", FlagValue(v.visaCategoryEB2NIW)),
      ("visaCategoryUnknown", FlagValue(v.visaCategoryUnknown)),
      ("files", match v.files
                case Selected(fs) => FileListValue(fs)
                case _ => Missing) ]
  }

  /** `value.toString()` of a boolean. */
  function BoolText(b: bool): (s: string)
    ensures s == "true" <==> b
    ensures s == "false" <==> !b
  {
    if b then "true" else "false"
  }

  /** What `FormData.append` stores for a FileList given as a plain value. */
  const FileListText := "[object FileList]"

  /** What one pass of the `forEach` appends for a `[key, value]` pair. */
  function EntryStep(key: string, value: FieldValue): seq<Entry>
  {
    if key == "files" then []
    else
      match value
      case FlagValue(b) => [Entry(key, Text(BoolText(b)))]
      case TextValue(t) => [Entry(key, Text(t))]
      case Missing => []
      case FileListValue(_) => [Entry(key, Text(FileListText))]
  }

  /**
   * The entries the `forEach` appends: nothing under `files`, nothing for a
   * null or undefined value, and text for everything else.
   */
  function EntryParts(entries: seq<(string, FieldValue)>): (parts: seq<Entry>)
    ensures |parts| <= |entries|
    decreases |entries|
  {
    if entries == [] then []
    else
      var n := |entries| - 1;
      EntryParts(entries[..n]) + EntryStep(entries[n].0, entries[n].1)
  }

  /**
   * Every entry the `forEach` appends is text, under a key other than
   * `files`, and comes from a pair whose value is neither null nor undefined.
   */
  lemma {:induction false} EntryPartsOrigin(entries: seq<(string, FieldValue)>)
    ensures forall e :: e in EntryParts(entries) ==>
              && e.key != "files" && e.value.Text?
              && exists i :: 0 <= i < |entries| && entries[i].0 == e.key && !entries[i].1.Missing?
    decreases |entries|
  {
    if entries != [] {
      var n := |entries| - 1;
      EntryPartsOrigin(entries[..n]);
      forall e | e in EntryParts(entries)
        ensures && e.key != "files" && e.value.Text?
                && exists i :: 0 <= i < |entries| && entries[i].0 == e.key && !entries[i].1.Missing?
      {
        if e in EntryParts(entries[..n]) {
          var i :| 0 <= i < n && entries[..n][i].0 == e.key && !entries[..n][i].1.Missing?;
          assert entries[i] == entries[..n][i];
        } else {
          assert e in EntryStep(entries[n].0, entries[n].1);
        }
      }
    }
  }

  /** One `files` entry per file, in list order. */
  function FileUploads(files: seq<File>): (parts: seq<Entry>)
    ensures |parts| == |files|
    ensures forall i :: 0 <= i < |files| ==> parts[i] == Entry("files", Upload(files[i]))
    decreases |files|
  {
    if files == [] then []
    else FileUploads(files[..|files| - 1]) + [Entry("files", Upload(files[|files| - 1]))]
  }

  /** `if (data.files)`: a FileList, even an empty one, is truthy; null and undefined are not. */
  function FileParts(selection: FileSelection): seq<Entry>
  {
    match selection
    case Selected(fs) => FileUploads(fs)
    case _ => []
  }

  /** The body `onSubmit` posts. */
  function Payload(v: FormValues): seq<Entry>
  {
    EntryParts(FieldEntries(v)) + FileParts(v.files)
  }

  /** The `forEach` over `Object.entries(data)`: every pair appends its step. */
  method AppendFields(entries: seq<(string, FieldValue)>) returns (formPayload: seq<Entry>)
    ensures formPayload == EntryParts(entries)
  {
    formPayload := [];
    var i := 0;
    while i < |entries|
      invariant 0 <= i <= |entries|
      invariant formPayload == EntryParts(entries[..i])
    {
      var (key, value) := entries[i];
      if key != "files" {
        match value {
          case FlagValue(b) => formPayload := formPayload + [Entry(key, Text(BoolText(b)))];
          case TextValue(t) => formPayload := formPayload + [Entry(key, Text(t))];
          case Missing =>
          case FileListValue(_) => formPayload := formPayload + [Entry(key, Text(FileListText))];
        }
      }
      EntryPartsLast(entries, i + 1);
      i := i + 1;
    }
    assert entries[..i] == entries;
  }

  /** The `for` loop over the selected files: one `files` entry per file, in order. */
  method AppendFiles(fields: seq<Entry>, files: seq<File>) returns (formPayload: seq<Entry>)
    ensures formPayload == fields + FileUploads(files)
  {
    formPayload := fields;
    var j := 0;
    while j < |files|
      invariant 0 <= j <= |files|
      invariant formPayload == fields + FileUploads(files[..j])
    {
      formPayload := formPayload + [Entry("files", Upload(files[j]))];
      FileUploadsLast(files, j + 1);
      j := j + 1;
    }
    assert files[..j] == files;
  }

  /** `onSubmit` up to the request: the `forEach` over the fields, then the loop over the files. */
  method BuildPayload(v: FormValues) returns (formPayload: seq<Entry>)
    ensures formPayload == Payload(v)
  {
    formPayload := AppendFields(FieldEntries(v));
    if v.files.Selected? {
      formPayload := AppendFiles(formPayload, v.files.files);
    }
  }

  /** The keys the form posts as text, in form order. */
  const FieldKeys := [
    "firstName", "lastName", "email", "country", "website", "message",
    "visaCategoryO1", "visaCategoryEB1A", "visaCategoryEB2NIW", "visaCategoryUnknown"]

  lemma FieldKeysDistinct()
    ensures forall i, j :: 0 <= j < i < |FieldKeys| ==> FieldKeys[j] != FieldKeys[i]
    ensures "files" !in FieldKeys
  {
  }

  /** The payload's field entries, one per field except `files`, in form order. */
  function FieldParts(v: FormValues): seq<Entry>
  {
    [ Entry("firstName", Text(v.firstName)),
      Entry("lastName", Text(v.lastName)),
      Entry("email", Text(v.email)),
      Entry("country", Text(v.country)),
      Entry("website", Text(v.website)),
      Entry("message", Text(v.message)),
      Entry("visaCategoryO1", Text(BoolText(v.visaCategoryO1))),
      Entry("visaCategoryEB1A", Text(BoolText(v.visaCategoryEB1A))),
      Entry("visaCategoryEB2NIW", Text(BoolText(v.visaCategoryEB2NIW))),
      Entry("visaCategoryUnknown", Text(BoolText(v.visaCategoryUnknown))) ]
  }

  /** The pairs before `k` append what the pairs before `k - 1` append, then pair `k - 1`'s step. */
  lemma EntryPartsLast(entries: seq<(string, FieldValue)>, k: nat)
    requires 0 < k <= |entries|
    ensures EntryParts(entries[..k]) == EntryParts(entries[..k - 1]) + EntryStep(entries[k - 1].0, entries[k - 1].1)
  {
    assert entries[..k][..k - 1] == entries[..k - 1];
  }

  lemma FileUploadsLast(files: seq<File>, k: nat)
    requires 0 < k <= |files|
    ensures FileUploads(files[..k]) == FileUploads(files[..k - 1]) + [Entry("files", Upload(files[k - 1]))]
  {
    assert files[..k][..k - 1] == files[..k - 1];
  }

  /** Each of the ten field pairs appends exactly its own entry: text as typed, a flag as `"true"`/`"false"`. */
  lemma FieldStep(v: FormValues, k: nat)
    requires k < 10
    ensures EntryStep(FieldEntries(v)[k].0, FieldEntries(v)[k].1) == [FieldParts(v)[k]]
  {
    FieldKeysDistinct();
    assert FieldEntries(v)[k].0 == FieldKeys[k];
  }

  /** The first `k` pairs append the first `k` field entries. */
  lemma {:induction false} FieldPrefixShape(v: FormValues, k: nat)
    requires k <= 10
    ensures EntryParts(FieldEntries(v)[..k]) == FieldParts(v)[..k]
  {
    if k == 0 {
      assert FieldEntries(v)[..0] == [];
    } else {
      FieldPrefixShape(v, k - 1);
      EntryPartsLast(FieldEntries(v), k);
      FieldStep(v, k - 1);
      TakeLast(FieldParts(v), k);
    }
  }

  /** The ten fields before `files` are appended in form order. */
  lemma FieldPartsShape(v: FormValues)
    ensures EntryParts(FieldEntries(v)[..10]) == FieldParts(v)
  {
    FieldPrefixShape(v, 10);
    assert FieldParts(v)[..10] == FieldParts(v);
  }

  /** Every text field is appended as is, every flag as `"true"`/`"false"`, then the files. */
  lemma PayloadShape(v: FormValues)
    ensures Payload(v) == FieldParts(v) + FileParts(v.files)
  {
    var e := FieldEntries(v);
    FieldPartsShape(v);
    EntryPartsLast(e, 11);
    assert EntryStep(e[10].0, e[10].1) == [];
    assert e[..11] == e;
  }

  /** The files selected, as the `files` entries the server's `getAll` sees. */
  function Uploads(files: seq<File>): (parts: seq<Part>)
    ensures |parts| == |files|
    ensures forall i :: 0 <= i < |files| ==> parts[i] == Upload(files[i])
    decreases |files|
  {
    if files == [] then [] else Uploads(files[..|files| - 1]) + [Upload(files[|files| - 1])]
  }

  function SelectedFiles(selection: FileSelection): seq<File>
  {
    if selection.Selected? then selection.files else []
  }

  lemma {:induction false} GetAllFileUploads(files: seq<File>)
    ensures GetAll(FileUploads(files), "files") == Uploads(files)
    decreases |files|
  {
    if files != [] {
      var n := |files| - 1;
      var last := [Entry("files", Upload(files[n]))];
      assert FileUploads(files) == FileUploads(files[..n]) + last;
      GetAllFileUploads(files[..n]);
      GetAllAppend(FileUploads(files[..n]), last, "files");
      assert last[1..] == [];
      assert GetAll(last, "files") == [Upload(files[n])];
    }
  }

  lemma FieldPartsKeys(v: FormValues)
    ensures |FieldParts(v)| == |FieldKeys|
    ensures forall k :: 0 <= k < |FieldKeys| ==> FieldParts(v)[k].key == FieldKeys[k]
  {
  }

  /** `get` on the payload finds each field's own entry. */
  lemma PayloadGet(v: FormValues, k: nat)
    requires k < |FieldKeys|
    ensures Get(Payload(v), FieldKeys[k]) == Some(FieldParts(v)[k].value)
  {
    PayloadShape(v);
    FieldKeysDistinct();
    FieldPartsKeys(v);
    var fields := FieldParts(v);
    GetAt(fields + FileParts(v.files), k, FieldKeys[k]);
  }

  /** What a server reads back with `get` for the text fields: each value as typed. */
  lemma PayloadTextFields(v: FormValues)
    ensures Get(Payload(v), "firstName") == Some(Text(v.firstName))
    ensures Get(Payload(v), "lastName") == Some(Text(v.lastName))
    ensures Get(Payload(v), "email") == Some(Text(v.email))
    ensures Get(Payload(v), "country") == Some(Text(v.country))
    ensures Get(Payload(v), "website") == Some(Text(v.website))
    ensures Get(Payload(v), "message") == Some(Text(v.message))
  {
    PayloadGet(v, 0);
    PayloadGet(v, 1);
    PayloadGet(v, 2);
    PayloadGet(v, 3);
    PayloadGet(v, 4);
    PayloadGet(v, 5);
  }

  /** What a server reads back with `get` for the visa categories: `"true"` or `"false"`. */
  lemma PayloadFlags(v: FormValues)
    ensures Get(Payload(v), "visaCategoryO1") == Some(Text(BoolText(v.visaCategoryO1)))
    ensures Get(Payload(v), "visaCategoryEB1A") == Some(Text(BoolText(v.visaCategoryEB1A)))
    ensures Get(Payload(v), "visaCategoryEB2NIW") == Some(Text(BoolText(v.visaCategoryEB2NIW)))
    ensures Get(Payload(v), "visaCategoryUnknown") == Some(Text(BoolText(v.visaCategoryUnknown)))
  {
    PayloadGet(v, 6);
    PayloadGet(v, 7);
    PayloadGet(v, 8);
    PayloadGet(v, 9);
  }

  /** Under `files`, `getAll` sees every selected file, in selection order, and nothing else. */
  lemma PayloadFiles(v: FormValues)
    ensures GetAll(Payload(v), "files") == Uploads(SelectedFiles(v.files))
  {
    PayloadShape(v);
    FieldKeysDistinct();
    FieldPartsKeys(v);
    var fields := FieldParts(v);
    GetAllAppend(fields, FileParts(v.files), "files");
    assert forall i :: 0 <= i < |fields| ==> fields[i].key == FieldKeys[i];
    GetAllAbsent(fields, "files");
    GetAllFileUploads(SelectedFiles(v.files));
  }

  // ---------------------------------------------------------------------------
  // Submit state
  // ---------------------------------------------------------------------------

  /**
   * How the request went: an ok response; a response that is not ok, with the
   * `error` member of its JSON body (None when missing or null); or a thrown
   * error with its message.
   */
  datatype SubmitOutcome = Ok | NotOk(errorField: Option<string>) | Thrown(message: string)

  const SubmitFailedMessage := "Failed to submit lead information"
  const RetryMessage := "Something went wrong. Please try again."
  const ThankYouPage := "/thank-you"

  /** The server error shown after a failed request. */
  function SubmitError(outcome: SubmitOutcome): (message: string)
    requires !outcome.Ok?
    ensures message != ""
    ensures outcome.NotOk? && outcome.errorField.Some? && outcome.errorField.value != ""
            ==> message == outcome.errorField.value
    ensures outcome.NotOk? && (outcome.errorField.None? || outcome.errorField.value == "")
            ==> message == SubmitFailedMessage
    ensures outcome.Thrown? ==> message == if outcome.message != "" then outcome.message else RetryMessage
  {
    match outcome
    case NotOk(errorField) =>
      if errorField.Some? && errorField.value != "" then errorField.value else SubmitFailedMessage
    case Thrown(m) => if m != "" then m else RetryMessage
  }

  class LeadFormView {
    var isSubmitting: bool
    var serverError: string
    /** The page the router was pushed to, if any. */
    var navigatedTo: Option<string>

    constructor ()
      ensures !isSubmitting && serverError == "" && navigatedTo.None?
    {
      isSubmitting := false;
      serverError := "";
      navigatedTo := None;
    }

    /** The submit button is disabled and reads `Submitting...` while a request runs. */
    function SubmitCaption(): (caption: string)
      reads this
      ensures caption == "Submitting..." <==> isSubmitting
      ensures caption == "Submit" <==> !isSubmitting
    {
      if isSubmitting then "Submitting..." else "Submit"
    }

    /** `onSubmit` up to the `await`: mark the form busy, clear the old error, build the body. */
    method BeginSubmit(v: FormValues) returns (formPayload: seq<Entry>)
      modifies this
      ensures isSubmitting && serverError == ""
      ensures navigatedTo == old(navigatedTo)
      ensures formPayload == Payload(v)
    {
      isSubmitting := true;
      serverError := "";
      formPayload := BuildPayload(v);
    }

    /** `onSubmit` after the `await`: navigate on success, record the error otherwise, never stay busy. */
    method FinishSubmit(outcome: SubmitOutcome)
      modifies this
      ensures !isSubmitting
      ensures outcome.Ok? ==> navigatedTo == Some(ThankYouPage) && serverError == old(serverError)
      ensures !outcome.Ok? ==> navigatedTo == old(navigatedTo) && serverError == SubmitError(outcome)
    {
      if outcome.Ok? {
        navigatedTo := Some(ThankYouPage);
      } else {
        serverError := SubmitError(outcome);
      }
      isSubmitting := false;
    }

    /**
     * `handleSubmit(onSubmit)`: invalid values stop before anything is sent;
     * valid values are posted and the outcome decides between navigation and
     * an error message.
     */
    method Submit(v: FormValues, outcome: SubmitOutcome) returns (sent: Option<seq<Entry>>)
      modifies this
      ensures Validate(v) != [] ==> sent.None? && unchanged(this)
      ensures Validate(v) == [] ==> sent == Some(Payload(v))
      ensures Validate(v) == [] ==> !isSubmitting
      ensures Validate(v) == [] && outcome.Ok? ==> navigatedTo == Some(ThankYouPage) && serverError == ""
      ensures Validate(v) == [] && !outcome.Ok? ==>
                navigatedTo == old(navigatedTo) && serverError == SubmitError(outcome) && serverError != ""
    {
      if Validate(v) != [] {
        return None;
      }
      var formPayload := BeginSubmit(v);
      FinishSubmit(outcome);
      sent := Some(formPayload);
    }
  }
}
