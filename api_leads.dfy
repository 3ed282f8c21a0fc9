/**
 * The leads endpoint: `POST` turns a multipart submission into one stored lead
 * (saving each non-empty upload under a fresh name first), `GET` lists every
 * lead newest first.
 *
 * The uuid generator, the disk write and the ORM are not modelled as code:
 * each save is given as a SaveOutcome, the insert as a CreateOutcome.
 */
module ApiLeads {
  import opened Leads
  import opened Strings
  import opened Multipart

  // ---------------------------------------------------------------------------
  // saveFile: storage names
  // ---------------------------------------------------------------------------

  /** `p` without its trailing `/` characters. */
  function TrimTrailingSlashes(p: string): (t: string)
    ensures t <= p
    ensures t == [] || t[|t| - 1] != '/'
    ensures forall i :: |t| <= i < |p| ==> p[i] == '/'
  {
    if p != [] && p[|p| - 1] == '/' then TrimTrailingSlashes(p[..|p| - 1]) else p
  }

  /** `t.endsWith(suffix)` */
  predicate EndsWith(t: string, suffix: string)
  {
    |suffix| <= |t| && t[|t| - |suffix|..] == suffix
  }

  /** The last path segment: what follows the last `/`. */
  function LastSegment(t: string): (segment: string)
    ensures EndsWith(t, segment)
    ensures forall i :: 0 <= i < |segment| ==> segment[i] != '/'
    ensures |segment| == |t| || t[|t| - |segment| - 1] == '/'
  {
    var start := LastIndexOf(t, '/') + 1;
    assert forall i :: 0 <= i < |t| - start ==> t[start..][i] == t[start + i];
    t[start..]
  }

  /** The extension of one segment: from its last `.`, unless that is its first character or the segment is `..`. */
  function SegmentExt(segment: string): (ext: string)
    ensures ext == [] || (ext[0] == '.' && forall i :: 1 <= i < |ext| ==> ext[i] != '.')
    ensures EndsWith(segment, ext)
    ensures ext != [] <==> segment != ".." && exists k :: 0 < k < |segment| && segment[k] == '.'
  {
    var dot := LastIndexOf(segment, '.');
    if dot <= 0 || segment == ".." then "" else segment[dot..]
  }

  /**
   * Node's `path.extname` (POSIX): in the last path segment, ignoring trailing
   * slashes, the text from the last `.` to the end; empty when the segment has
   * no `.`, when its only `.` is its first character, or when it is `..`.
   */
  function ExtName(p: string): (ext: string)
    ensures ext == [] || (ext[0] == '.' && forall i :: 1 <= i < |ext| ==> ext[i] != '.')
    ensures forall i :: 0 <= i < |ext| ==> ext[i] != '/'
    ensures EndsWith(TrimTrailingSlashes(p), ext)
  {
    var t := TrimTrailingSlashes(p);
    var segment := LastSegment(t);
    SuffixOfSuffix(t, segment, SegmentExt(segment));
    SegmentExt(segment)
  }

  lemma SuffixOfSuffix(t: string, u: string, v: string)
    requires EndsWith(t, u) && EndsWith(u, v)
    ensures EndsWith(t, v)
    ensures forall i :: 0 <= i < |v| ==> v[i] == u[|u| - |v| + i]
  {
    forall i | 0 <= i < |v|
      ensures v[i] == u[|u| - |v| + i] && t[|t| - |v| + i] == v[i]
    {
      assert v[i] == u[|u| - |v|..][i];
      assert u[|u| - |v| + i] == t[|t| - |u|..][|u| - |v| + i];
    }
  }

  /** A path without `/` is its own last segment. */
  lemma NoSlashIsSegment(p: string)
    requires '/' !in p
    ensures TrimTrailingSlashes(p) == p && LastSegment(p) == p
  {
    assert LastIndexOf(p, '/') == -1;
    assert p[0..] == p;
  }

  /** `c` at `k` and nowhere after it: `k` is the last index of `c`. */
  lemma LastIndexOfAt(s: string, c: char, k: nat)
    requires k < |s| && s[k] == c
    requires forall i :: k < i < |s| ==> s[i] != c
    ensures LastIndexOf(s, c) == k
  {
  }

  /** A segment whose last `.` is at `k`, neither first nor the segment `..`, has extension `segment[k..]`. */
  lemma SegmentExtAt(segment: string, k: nat)
    requires 0 < k < |segment| && segment[k] == '.' && segment != ".."
    requires forall i :: k < i < |segment| ==> segment[i] != '.'
    ensures SegmentExt(segment) == segment[k..]
  {
    LastIndexOfAt(segment, '.', k);
  }

  /** `stem + "." + e` splits at the `.` after the stem. */
  lemma DottedNameSplit(stem: string, e: string)
    requires '/' !in stem && '/' !in e && '.' !in e
    ensures var p := stem + "." + e;
            && '/' !in p && p[|stem|] == '.' && p[|stem|..] == "." + e
            && forall i :: |stem| < i < |p| ==> p[i] != '.'
  {
    var p := stem + "." + e;
    assert p[|stem|..] == "." + e;
    forall i | |stem| < i < |p| ensures p[i] != '.' {
      assert p[i] == e[i - |stem| - 1];
    }
  }

  /** A plain `stem.ext` file name has extension `.ext`; `name.` has extension `.`, except for `..`. */
  lemma ExtNameOfDottedName(stem: string, e: string)
    requires stem != [] && (e != [] || stem != ".")
    requires '/' !in stem && '/' !in e && '.' !in e
    ensures ExtName(stem + "." + e) == "." + e
  {
    var p := stem + "." + e;
    DottedNameSplit(stem, e);
    assert p != ".." by {
      if |p| == 2 {
        assert |stem| == 1 && e == [] && p[0] == stem[0];
        assert stem == [stem[0]];
      }
    }
    NoSlashIsSegment(p);
    SegmentExtAt(p, |stem|);
  }

  /** A name without any `.` has no extension. */
  lemma ExtNameWithoutDot(p: string)
    requires '.' !in p
    ensures ExtName(p) == ""
  {
    var segment := LastSegment(TrimTrailingSlashes(p));
    assert forall i :: 0 <= i < |segment| ==> segment[i] in p;
    assert LastIndexOf(segment, '.') == -1;
  }

  /** A hidden file such as `.env` has no extension. */
  lemma ExtNameOfHiddenFile(e: string)
    requires '/' !in e && '.' !in e
    ensures ExtName("." + e) == ""
  {
    var p := "." + e;
    assert '/' !in p;
    NoSlashIsSegment(p);
    forall i | 0 < i < |p| ensures p[i] != '.' {
      assert p[i] == e[i - 1];
    }
    LastIndexOfAt(p, '.', 0);
  }

  /** Only the last segment counts: directories in front of a file name leave its extension alone. */
  lemma ExtNameOfPath(dir: string, name: string)
    requires name != [] && '/' !in name
    ensures ExtName(dir + "/" + name) == ExtName(name)
  {
    var p := dir + "/" + name;
    assert p[|p| - 1] == name[|name| - 1];
    assert TrimTrailingSlashes(p) == p;
    forall i | |dir| < i < |p| ensures p[i] != '/' {
      assert p[i] == name[i - |dir| - 1];
    }
    LastIndexOfAt(p, '/', |dir|);
    assert p[|dir| + 1..] == name;
    NoSlashIsSegment(name);
  }

  const UploadsPrefix := "/uploads/"

  /** The public path of an upload: `/uploads/` + the fresh id + the original extension. */
  function StoragePath(uuid: string, originalName: string): (path: string)
    ensures |path| == |UploadsPrefix| + |uuid| + |ExtName(originalName)|
    ensures UploadsPrefix <= path
    ensures path[|UploadsPrefix|..|UploadsPrefix| + |uuid|] == uuid
    ensures EndsWith(path, ExtName(originalName))
  {
    ConcatParts(UploadsPrefix, uuid, ExtName(originalName));
    UploadsPrefix + uuid + ExtName(originalName)
  }

  /** The stored file keeps the original name's extension: `path.extname` of the stored path gives it back. */
  lemma StoragePathKeepsExtension(uuid: string, originalName: string)
    requires '/' !in uuid && '.' !in uuid && uuid != []
    ensures ExtName(StoragePath(uuid, originalName)) == ExtName(originalName)
  {
    StoragePathInUploads(uuid, originalName);
    ExtNameOfStoredName(uuid, ExtName(originalName));
  }

  /** The stored path is the file name `uuid + ext` in the directory `/uploads`. */
  lemma StoragePathInUploads(uuid: string, originalName: string)
    ensures StoragePath(uuid, originalName) == "/uploads" + "/" + (uuid + ExtName(originalName))
  {
    assert UploadsPrefix == "/uploads" + "/";
    Regroup(UploadsPrefix, "/uploads", uuid, ExtName(originalName));
  }

  lemma Regroup(prefix: string, dir: string, b: string, c: string)
    requires prefix == dir + "/"
    ensures prefix + b + c == dir + "/" + (b + c)
  {
  }

  /** An id without `/` or `.`, followed by an extension, in a directory: the extension is what `path.extname` finds. */
  lemma ExtNameOfStoredName(uuid: string, ext: string)
    requires '/' !in uuid && '.' !in uuid && uuid != []
    requires ext == [] || (ext[0] == '.' && forall i :: 1 <= i < |ext| ==> ext[i] != '.')
    requires forall i :: 0 <= i < |ext| ==> ext[i] != '/'
    ensures ExtName("/uploads" + "/" + (uuid + ext)) == ext
  {
    if ext == [] {
      assert uuid + ext == uuid;
      ExtNameOfPath("/uploads", uuid);
      ExtNameWithoutDot(uuid);
    } else {
      var e := ext[1..];
      ExtensionParts(ext);
      NoSlashConcat(uuid, ext);
      assert uuid + ext == uuid + "." + e;
      ExtNameOfPath("/uploads", uuid + ext);
      ExtNameOfDottedName(uuid, e);
    }
  }

  /** A non-empty extension is `.` and a part without `.` or `/`. */
  lemma ExtensionParts(ext: string)
    requires ext != [] && ext[0] == '.' && forall i :: 1 <= i < |ext| ==> ext[i] != '.'
    requires forall i :: 0 <= i < |ext| ==> ext[i] != '/'
    ensures ext == "." + ext[1..] && '/' !in ext[1..] && '.' !in ext[1..]
  {
    var e := ext[1..];
    forall i | 0 <= i < |e| ensures e[i] != '/' && e[i] != '.' {
      assert e[i] == ext[i + 1];
    }
  }

  lemma NoSlashConcat(a: string, b: string)
    requires '/' !in a
    requires forall i :: 0 <= i < |b| ==> b[i] != '/'
    ensures '/' !in a + b
  {
    forall i | 0 <= i < |a + b| ensures (a + b)[i] != '/' {
      if i < |a| {
        assert (a + b)[i] == a[i];
      } else {
        assert (a + b)[i] == b[i - |a|];
      }
    }
  }

  /** `a + b + c` starts with `a`, holds `b` right after it and ends with `c`. */
  lemma ConcatParts(a: string, b: string, c: string)
    ensures a <= a + b + c
    ensures (a + b + c)[|a|..|a| + |b|] == b
    ensures EndsWith(a + b + c, c)
  {
    var t := a + b + c;
    assert t[..|a|] == a;
    assert t[|a|..|a| + |b|] == b;
    assert t[|t| - |c|..] == c;
  }

  /** Distinct ids of one length (uuids are all 36 characters) never share a path. */
  lemma StoragePathsDistinct(id1: string, name1: string, id2: string, name2: string)
    requires |id1| == |id2| && id1 != id2
    ensures StoragePath(id1, name1) != StoragePath(id2, name2)
  {
    var n := |UploadsPrefix|;
    assert StoragePath(id1, name1)[n..n + |id1|] == id1;
    assert StoragePath(id2, name2)[n..n + |id2|] == id2;
  }

  /** What became of one attempted `saveFile`: written under a fresh uuid, or thrown. */
  datatype SaveOutcome = Written(uuid: string) | WriteFailed

  /** `saveFile`: the original name and the public path, or nothing when it throws. */
  function SaveFile(file: File, outcome: SaveOutcome): (saved: Option<FileDescriptor>)
    ensures saved.Some? <==> outcome.Written?
    ensures saved.Some? ==> saved.value.name == file.name && saved.value.path == StoragePath(outcome.uuid, file.name)
  {
    match outcome
    case Written(uuid) => Some(FileDescriptor(file.name, StoragePath(uuid, file.name)))
    case WriteFailed => None
  }

  // ---------------------------------------------------------------------------
  // POST: the file loop
  // ---------------------------------------------------------------------------

  /** `fileItem instanceof File && fileItem.size > 0` */
  predicate IsNonEmptyFile(p: Part)
  {
    p.Upload? && p.file.size > 0
  }

  /** What one iteration of the file loop adds to `fileData`. */
  function SaveStep(p: Part, outcome: SaveOutcome): seq<FileDescriptor>
  {
    if IsNonEmptyFile(p) then
      match SaveFile(p.file, outcome)
      case Some(d) => [d]
      case None => []
    else []
  }

  /**
   * The descriptors the file loop collects from the `files` entries, given
   * the outcome of the save attempted at each position.
   */
  function Descriptors(parts: seq<Part>, outcomes: seq<SaveOutcome>): seq<FileDescriptor>
    requires |parts| == |outcomes|
    decreases |parts|
  {
    if parts == [] then []
    else
      var n := |parts| - 1;
      Descriptors(parts[..n], outcomes[..n]) + SaveStep(parts[n], outcomes[n])
  }

  /** The number of entries that are non-empty files. */
  function NonEmptyFileCount(parts: seq<Part>): nat
    decreases |parts|
  {
    if parts == [] then 0
    else NonEmptyFileCount(parts[..|parts| - 1]) + (if IsNonEmptyFile(parts[|parts| - 1]) then 1 else 0)
  }

  /** The names of the entries that are non-empty files, in order. */
  function NonEmptyFileNames(parts: seq<Part>): seq<string>
    decreases |parts|
  {
    if parts == [] then []
    else
      var n := |parts| - 1;
      NonEmptyFileNames(parts[..n]) + (if IsNonEmptyFile(parts[n]) then [parts[n].file.name] else [])
  }

  function Names(ds: seq<FileDescriptor>): seq<string>
    decreases |ds|
  {
    if ds == [] then [] else Names(ds[..|ds| - 1]) + [ds[|ds| - 1].name]
  }

  /** Every save that was attempted (on a non-empty file) succeeded. */
  predicate AllSaved(parts: seq<Part>, outcomes: seq<SaveOutcome>)
    requires |parts| == |outcomes|
  {
    forall i :: 0 <= i < |parts| && IsNonEmptyFile(parts[i]) ==> outcomes[i].Written?
  }

  /**
   * The loop of `POST`: each entry that is a non-empty file is saved and its
   * descriptor pushed; a failed save is skipped and the loop goes on.
   */
  method CollectFiles(filesField: seq<Part>, outcomes: seq<SaveOutcome>) returns (fileData: seq<FileDescriptor>)
    requires |filesField| == |outcomes|
    ensures fileData == Descriptors(filesField, outcomes)
  {
    fileData := [];
    var i := 0;
    while i < |filesField|
      invariant 0 <= i <= |filesField|
      invariant fileData == Descriptors(filesField[..i], outcomes[..i])
    {
      DescriptorsSnoc(filesField, outcomes, i);
      var fileItem := filesField[i];
      if fileItem.Upload? && fileItem.file.size > 0 {
        var saved := SaveFile(fileItem.file, outcomes[i]);
        if saved.Some? {
          fileData := fileData + [saved.value];
        }
      }
      i := i + 1;
    }
    assert filesField[..i] == filesField && outcomes[..i] == outcomes;
  }

  /** One more iteration of the file loop appends that entry's SaveStep. */
  lemma DescriptorsSnoc(parts: seq<Part>, outcomes: seq<SaveOutcome>, i: nat)
    requires |parts| == |outcomes| && i < |parts|
    ensures Descriptors(parts[..i + 1], outcomes[..i + 1])
            == Descriptors(parts[..i], outcomes[..i]) + SaveStep(parts[i], outcomes[i])
  {
    assert parts[..i + 1][..i] == parts[..i];
    assert outcomes[..i + 1][..i] == outcomes[..i];
  }

  /** The loop keeps submission order: entries processed later come later in `fileData`. */
  lemma {:induction false} DescriptorsAppend(p1: seq<Part>, o1: seq<SaveOutcome>, p2: seq<Part>, o2: seq<SaveOutcome>)
    requires |p1| == |o1| && |p2| == |o2|
    ensures Descriptors(p1 + p2, o1 + o2) == Descriptors(p1, o1) + Descriptors(p2, o2)
    decreases |p2|
  {
    if p2 == [] {
      assert p1 + p2 == p1 && o1 + o2 == o1;
    } else {
      var n := |p2| - 1;
      var step := SaveStep(p2[n], o2[n]);
      assert Descriptors(p1 + p2, o1 + o2)
          == (Descriptors(p1, o1) + Descriptors(p2[..n], o2[..n])) + step by {
        DescriptorsAppend(p1, o1, p2[..n], o2[..n]);
        AppendedLast(p1, o1, p2, o2);
      }
      assert Descriptors(p2, o2) == Descriptors(p2[..n], o2[..n]) + step;
    }
  }

  /** The last entry of `p1 + p2` is the last of `p2`, and what precedes it is `p1 + p2[..n]`. */
  lemma AppendedLast(p1: seq<Part>, o1: seq<SaveOutcome>, p2: seq<Part>, o2: seq<SaveOutcome>)
    requires |p1| == |o1| && |p2| == |o2| && p2 != []
    ensures var n := |p2| - 1;
            Descriptors(p1 + p2, o1 + o2)
            == Descriptors(p1 + p2[..n], o1 + o2[..n]) + SaveStep(p2[n], o2[n])
  {
    var q, r := p1 + p2, o1 + o2;
    var m := |q| - 1;
    assert Descriptors(q, r) == Descriptors(q[..m], r[..m]) + SaveStep(q[m], r[m]);
    AppendLast(p1, p2);
    AppendLast(o1, o2);
  }

  /** At most one descriptor per non-empty file: failures only remove entries. */
  lemma {:induction false} DescriptorsBound(parts: seq<Part>, outcomes: seq<SaveOutcome>)
    requires |parts| == |outcomes|
    ensures |Descriptors(parts, outcomes)| <= NonEmptyFileCount(parts)
    ensures AllSaved(parts, outcomes) ==> |Descriptors(parts, outcomes)| == NonEmptyFileCount(parts)
    decreases |parts|
  {
    if parts != [] {
      var n := |parts| - 1;
      DescriptorsBound(parts[..n], outcomes[..n]);
    }
  }

  /**
   * Every descriptor comes from one non-empty file whose save succeeded: it
   * carries that file's name and the path built from that save's uuid.
   */
  lemma {:induction false} DescriptorsProvenance(parts: seq<Part>, outcomes: seq<SaveOutcome>, k: nat)
    requires |parts| == |outcomes|
    requires k < |Descriptors(parts, outcomes)|
    ensures exists i :: 0 <= i < |parts| && IsNonEmptyFile(parts[i]) && outcomes[i].Written?
              && Descriptors(parts, outcomes)[k]
                 == FileDescriptor(parts[i].file.name, StoragePath(outcomes[i].uuid, parts[i].file.name))
  {
    var i := DescriptorSource(parts, outcomes, k);
  }

  /** The index of the entry whose save produced descriptor `k`. */
  lemma {:induction false} DescriptorSource(parts: seq<Part>, outcomes: seq<SaveOutcome>, k: nat) returns (i: nat)
    requires |parts| == |outcomes|
    requires k < |Descriptors(parts, outcomes)|
    ensures i < |parts| && IsNonEmptyFile(parts[i]) && outcomes[i].Written?
    ensures Descriptors(parts, outcomes)[k] == SaveStep(parts[i], outcomes[i])[0]
    decreases |parts|
  {
    var n := |parts| - 1;
    var prefix := Descriptors(parts[..n], outcomes[..n]);
    if k < |prefix| {
      i := DescriptorSource(parts[..n], outcomes[..n], k);
      assert parts[..n][i] == parts[i];
      assert outcomes[..n][i] == outcomes[i];
    } else {
      i := n;
    }
  }

  /** When every save succeeds, the descriptors name exactly the non-empty files, in order. */
  lemma {:induction false} DescriptorNamesWhenAllSaved(parts: seq<Part>, outcomes: seq<SaveOutcome>)
    requires |parts| == |outcomes|
    requires AllSaved(parts, outcomes)
    ensures Names(Descriptors(parts, outcomes)) == NonEmptyFileNames(parts)
    decreases |parts|
  {
    if parts != [] {
      var n := |parts| - 1;
      assert AllSaved(parts[..n], outcomes[..n]) by {
        forall i | 0 <= i < n && IsNonEmptyFile(parts[..n][i]) ensures outcomes[..n][i].Written? {
          assert parts[..n][i] == parts[i] && outcomes[..n][i] == outcomes[i];
        }
      }
      DescriptorNamesWhenAllSaved(parts[..n], outcomes[..n]);
      var prefix := Descriptors(parts[..n], outcomes[..n]);
      var step := SaveStep(parts[n], outcomes[n]);
      NamesAppend(prefix, step);
    }
  }

  lemma {:induction false} NamesAppend(a: seq<FileDescriptor>, b: seq<FileDescriptor>)
    ensures Names(a + b) == Names(a) + Names(b)
    decreases |b|
  {
    if b == [] {
      assert a + b == a;
    } else {
      var n := |b| - 1;
      AppendLast(a, b);
      NamesAppend(a, b[..n]);
    }
  }

  // ---------------------------------------------------------------------------
  // POST: the lead record
  // ---------------------------------------------------------------------------

  /**
   * The object handed to the ORM's `create`. The text fields hold whatever
   * `formData.get` returned (null, a string or a file); `as string` converts nothing.
   */
  datatype LeadData = LeadData(
    firstName: Option<Part>,
    lastName: Option<Part>,
    email: Option<Part>,
    country: Option<Part>,
    website: Option<Part>,
    message: Part,
    files: Option<seq<FileDescriptor>>,
    visaCategoryO1: bool,
    visaCategoryEB1A: bool,
    visaCategoryEB2NIW: bool,
    visaCategoryUnknown: bool,
    status: Status)

  /** JavaScript truthiness of a `formData.get` result: null and `''` are falsy. */
  predicate Truthy(v: Option<Part>)
  {
    v.Some? && v.value != Text("")
  }

  /** `formData.get(key) === 'true'` */
  predicate FlagField(form: seq<Entry>, key: string)
  {
    Get(form, key) == Some(Text("true"))
  }

  function BuildLeadData(form: seq<Entry>, fileData: seq<FileDescriptor>): LeadData
  {
    var country := Get(form, "country");
    var message := Get(form, "message");
    LeadData(
      firstName := Get(form, "firstName"),
      lastName := Get(form, "lastName"),
      email := Get(form, "email"),
      country := if Truthy(country) then country else None,
      website := Get(form, "website"),
      message := if Truthy(message) then message.value else Text(""),
      files := if |fileData| > 0 then Some(fileData) else None,
      visaCategoryO1 := FlagField(form, "visaCategoryO1"),
      visaCategoryEB1A := FlagField(form, "visaCategoryEB1A"),
      visaCategoryEB2NIW := FlagField(form, "visaCategoryEB2NIW"),
      visaCategoryUnknown := FlagField(form, "visaCategoryUnknown"),
      status := Pending)
  }

  predicate IsText(v: Option<Part>)
  {
    v.Some? && v.value.Text?
  }

  /**
   * The column types of the lead table, which the code does not define:
   * `firstName`, `lastName`, `email`, `website` and `message` are taken to be
   * required text columns and `country` optional text; any other value makes
   * `create` throw.
   */
  predicate Storable(d: LeadData)
  {
    IsText(d.firstName) && IsText(d.lastName) && IsText(d.email) && IsText(d.website)
    && (d.country.None? || IsText(d.country)) && d.message.Text?
  }

  /** The row `create` returns: the data plus the id and timestamp the database assigns. */
  function Record(d: LeadData, id: string, createdAt: int): Lead
    requires Storable(d)
  {
    Lead(
      id := id,
      firstName := d.firstName.value.text,
      lastName := d.lastName.value.text,
      email := d.email.value.text,
      country := if d.country.Some? then Some(d.country.value.text) else None,
      website := d.website.value.text,
      message := d.message.text,
      visaCategoryO1 := d.visaCategoryO1,
      visaCategoryEB1A := d.visaCategoryEB1A,
      visaCategoryEB2NIW := d.visaCategoryEB2NIW,
      visaCategoryUnknown := d.visaCategoryUnknown,
      files := d.files,
      createdAt := createdAt,
      status := Some(d.status))
  }

  /** The request body: a multipart form, or one `req.formData()` cannot read. */
  datatype Request = FormBody(form: seq<Entry>) | UnreadableBody(details: string)

  /** What the database does with the insert when the data has the right types. */
  datatype CreateOutcome = Inserted(id: string, createdAt: int) | StoreError(details: string)

  /** `{ success: true, lead }` with 201, or `{ success: false, error, details }` with 500. */
  datatype PostResponse = Created(lead: Lead) | PostFailed(details: string)

  const SaveLeadError := "Failed to save lead"
  /** Stands for the ORM's validation message, whose text is not modelled. */
  const InvalidDataDetails := "invalid lead data"

  function PostStatusCode(r: PostResponse): (code: int)
    ensures code == 201 <==> r.Created?
    ensures code == 500 <==> r.PostFailed?
  {
    if r.Created? then 201 else 500
  }

  /** The `POST` handler as a function of the request and of the outcomes of its effects. */
  function HandlePost(req: Request, saves: seq<SaveOutcome>, create: CreateOutcome): (r: PostResponse)
    requires req.FormBody? ==> |saves| == |GetAll(req.form, "files")|
    ensures req.UnreadableBody? || create.StoreError? ==> r.PostFailed?
    ensures r.Created? ==> create.Inserted? && r.lead.id == create.id && r.lead.createdAt == create.createdAt
    ensures r.Created? ==> r.lead.status == Some(Pending)
    ensures r.Created? ==>
              && Get(req.form, "firstName") == Some(Text(r.lead.firstName))
              && Get(req.form, "lastName") == Some(Text(r.lead.lastName))
              && Get(req.form, "email") == Some(Text(r.lead.email))
              && Get(req.form, "website") == Some(Text(r.lead.website))
    ensures req.FormBody? && !IsText(Get(req.form, "firstName")) ==> r.PostFailed?
    ensures r.Created? ==>
              && (r.lead.visaCategoryO1 <==> Get(req.form, "visaCategoryO1") == Some(Text("true")))
              && (r.lead.visaCategoryEB1A <==> Get(req.form, "visaCategoryEB1A") == Some(Text("true")))
              && (r.lead.visaCategoryEB2NIW <==> Get(req.form, "visaCategoryEB2NIW") == Some(Text("true")))
              && (r.lead.visaCategoryUnknown <==> Get(req.form, "visaCategoryUnknown") == Some(Text("true")))
    ensures r.Created? ==>
              && (r.lead.country.None? <==> !Truthy(Get(req.form, "country")))
              && (r.lead.country.Some? ==> Get(req.form, "country") == Some(Text(r.lead.country.value)))
    ensures r.Created? ==>
              && (r.lead.message == "" <==> !Truthy(Get(req.form, "message")))
              && (r.lead.message != "" ==> Get(req.form, "message") == Some(Text(r.lead.message)))
    ensures r.Created? ==>
              var fileData := Descriptors(GetAll(req.form, "files"), saves);
              && (r.lead.files.None? <==> fileData == [])
              && (r.lead.files.Some? ==> r.lead.files.value == fileData)
  {
    match req
    case UnreadableBody(details) => PostFailed(details)
    case FormBody(form) =>
      var data := BuildLeadData(form, Descriptors(GetAll(form, "files"), saves));
      if !Storable(data) then PostFailed(InvalidDataDetails)
      else
        match create
        case StoreError(details) => PostFailed(details)
        case Inserted(id, createdAt) => Created(Record(data, id, createdAt))
  }

  /** A readable body whose data has the column types is stored, and the stored row is the answer. */
  lemma PostStoresRecord(form: seq<Entry>, saves: seq<SaveOutcome>, id: string, createdAt: int)
    requires |saves| == |GetAll(form, "files")|
    requires Storable(BuildLeadData(form, Descriptors(GetAll(form, "files"), saves)))
    ensures HandlePost(FormBody(form), saves, Inserted(id, createdAt))
            == Created(Record(BuildLeadData(form, Descriptors(GetAll(form, "files"), saves)), id, createdAt))
  {
  }

  /** `POST`: collects the files with the loop, then builds and stores the record. */
  method Post(req: Request, saves: seq<SaveOutcome>, create: CreateOutcome) returns (r: PostResponse)
    requires req.FormBody? ==> |saves| == |GetAll(req.form, "files")|
    ensures r == HandlePost(req, saves, create)
  {
    if req.UnreadableBody? {
      return PostFailed(req.details);
    }
    var form := req.form;
    var fileData := CollectFiles(GetAll(form, "files"), saves);
    var leadData := BuildLeadData(form, fileData);
    if !Storable(leadData) {
      return PostFailed(InvalidDataDetails);
    }
    match create {
      case StoreError(details) => r := PostFailed(details);
      case Inserted(id, createdAt) => r := Created(Record(leadData, id, createdAt));
    }
  }

  // ---------------------------------------------------------------------------
  // GET
  // ---------------------------------------------------------------------------

  /** Ordered by `createdAt`, newest first. */
  predicate NewestFirst(leads: seq<Lead>)
  {
    forall i, j :: 0 <= i < j < |leads| ==> leads[i].createdAt >= leads[j].createdAt
  }

  /** Places `x` before the first lead that is not newer than it. */
  function InsertByCreatedAt(x: Lead, leads: seq<Lead>): (r: seq<Lead>)
    ensures multiset(r) == multiset(leads) + multiset{x}
    ensures |r| == |leads| + 1
    ensures r[0] == x || (leads != [] && r[0] == leads[0])
  {
    if leads == [] || x.createdAt >= leads[0].createdAt then
      [x] + leads
    else
      assert leads == [leads[0]] + leads[1..];
      [leads[0]] + InsertByCreatedAt(x, leads[1..])
  }

  /** A lead at least as new as the first of a newest-first list may go in front of it. */
  lemma PrependNewest(y: Lead, leads: seq<Lead>)
    requires NewestFirst(leads)
    requires leads != [] ==> y.createdAt >= leads[0].createdAt
    ensures NewestFirst([y] + leads)
  {
    assert forall j :: 0 < j < |leads| ==> leads[0].createdAt >= leads[j].createdAt;
  }

  /** Inserting into a newest-first list keeps it newest first. */
  lemma {:induction false} InsertKeepsOrder(x: Lead, leads: seq<Lead>)
    requires NewestFirst(leads)
    ensures NewestFirst(InsertByCreatedAt(x, leads))
    decreases |leads|
  {
    if leads == [] || x.createdAt >= leads[0].createdAt {
      PrependNewest(x, leads);
    } else {
      assert NewestFirst(leads[1..]) by {
        assert forall i :: 0 <= i < |leads| - 1 ==> leads[1..][i] == leads[i + 1];
      }
      InsertKeepsOrder(x, leads[1..]);
      PrependNewest(leads[0], InsertByCreatedAt(x, leads[1..]));
    }
  }

  /** The order `findMany({ orderBy: { createdAt: 'desc' } })` returns. */
  function SortNewestFirst(leads: seq<Lead>): (r: seq<Lead>)
    ensures multiset(r) == multiset(leads)
  {
    if leads == [] then []
    else
      assert leads == [leads[0]] + leads[1..];
      InsertByCreatedAt(leads[0], SortNewestFirst(leads[1..]))
  }

  /** Sorting yields a newest-first list. */
  lemma {:induction false} SortIsNewestFirst(leads: seq<Lead>)
    ensures NewestFirst(SortNewestFirst(leads))
  {
    if leads != [] {
      SortIsNewestFirst(leads[1..]);
      InsertKeepsOrder(leads[0], SortNewestFirst(leads[1..]));
    }
  }

  /** What the database query does: returns its rows, or throws. */
  datatype QueryOutcome = Rows | QueryError(details: string)

  /** `{ success: true, data }` with 200, or `{ success: false, message, details }` with 500. */
  datatype ListResponse = Listed(data: seq<Lead>) | ListFailed(details: string)

  const FetchLeadsError := "Failed to fetch leads"

  function ListStatusCode(r: ListResponse): (code: int)
    ensures code == 200 <==> r.Listed?
    ensures code == 500 <==> r.ListFailed?
  {
    if r.Listed? then 200 else 500
  }

  /** `GET`: every stored lead, newest first, or a failure when the query throws. */
  function HandleGet(stored: seq<Lead>, query: QueryOutcome): (r: ListResponse)
    ensures r.Listed? <==> query.Rows?
    ensures r.Listed? ==> NewestFirst(r.data) && multiset(r.data) == multiset(stored)
    ensures r.ListFailed? ==> r.details == query.details
  {
    match query
    case Rows => SortIsNewestFirst(stored); Listed(SortNewestFirst(stored))
    case QueryError(details) => ListFailed(details)
  }
}
