/**
 * What the forms' bodies become at the leads endpoint, and how an accepted
 * website is shown in the admin list: the newer form's fields arrive intact,
 * the older form's body always lacks a field the endpoint stores.
 */
module Submission {
  import opened Leads
  import opened Multipart
  import LeadForm
  import LegacyLeadForm
  import ApiLeads
  import LeadList

  /** The record the endpoint builds from the newer form's body, before the database assigns id and time. */
  lemma FormLeadData(v: LeadForm.FormValues, fileData: seq<FileDescriptor>)
    ensures ApiLeads.BuildLeadData(LeadForm.Payload(v), fileData) == ApiLeads.LeadData(
      firstName := Some(Text(v.firstName)),
      lastName := Some(Text(v.lastName)),
      email := Some(Text(v.email)),
      country := if v.country == "" then None else Some(Text(v.country)),
      website := Some(Text(v.website)),
      message := Text(v.message),
      files := if fileData == [] then None else Some(fileData),
      visaCategoryO1 := v.visaCategoryO1,
      visaCategoryEB1A := v.visaCategoryEB1A,
      visaCategoryEB2NIW := v.visaCategoryEB2NIW,
      visaCategoryUnknown := v.visaCategoryUnknown,
      status := Pending)
  {
    LeadForm.PayloadTextFields(v);
    LeadForm.PayloadFlags(v);
  }

  /**
   * Posting the newer form's body: the lead stored has the typed text fields,
   * each visa flag as it was ticked, country null exactly when left empty, the
   * message as typed, status `PENDING`, and the descriptors of the selected
   * files that were saved (null when none was).
   */
  lemma FormPostRoundTrip(v: LeadForm.FormValues, saves: seq<ApiLeads.SaveOutcome>, id: string, createdAt: int)
    requires |saves| == |LeadForm.SelectedFiles(v.files)|
    ensures
      var req := ApiLeads.FormBody(LeadForm.Payload(v));
      |saves| == |GetAll(req.form, "files")| &&
      var r := ApiLeads.HandlePost(req, saves, ApiLeads.Inserted(id, createdAt));
      var fileData := ApiLeads.Descriptors(LeadForm.Uploads(LeadForm.SelectedFiles(v.files)), saves);
      && r.Created?
      && r.lead.id == id && r.lead.createdAt == createdAt
      && r.lead.firstName == v.firstName
      && r.lead.lastName == v.lastName
      && r.lead.email == v.email
      && r.lead.website == v.website
      && r.lead.country == (if v.country == "" then None else Some(v.country))
      && r.lead.message == v.message
      && r.lead.visaCategoryO1 == v.visaCategoryO1
      && r.lead.visaCategoryEB1A == v.visaCategoryEB1A
      && r.lead.visaCategoryEB2NIW == v.visaCategoryEB2NIW
      && r.lead.visaCategoryUnknown == v.visaCategoryUnknown
      && r.lead.status == Some(Pending)
      && r.lead.files == (if fileData == [] then None else Some(fileData))
  {
    var form := LeadForm.Payload(v);
    LeadForm.PayloadFiles(v);
    var fileData := ApiLeads.Descriptors(GetAll(form, "files"), saves);
    var data := ApiLeads.BuildLeadData(form, fileData);
    FormPostCreated(v, saves, id, createdAt);
    FormLeadData(v, fileData);
  }

  lemma FormPostCreated(v: LeadForm.FormValues, saves: seq<ApiLeads.SaveOutcome>, id: string, createdAt: int)
    requires |saves| == |GetAll(LeadForm.Payload(v), "files")|
    ensures
      var form := LeadForm.Payload(v);
      var data := ApiLeads.BuildLeadData(form, ApiLeads.Descriptors(GetAll(form, "files"), saves));
      && ApiLeads.Storable(data)
      && ApiLeads.HandlePost(ApiLeads.FormBody(form), saves, ApiLeads.Inserted(id, createdAt))
         == ApiLeads.Created(ApiLeads.Record(data, id, createdAt))
  {
    var form := LeadForm.Payload(v);
    FormStorable(v, ApiLeads.Descriptors(GetAll(form, "files"), saves));
    ApiLeads.PostStoresRecord(form, saves, id, createdAt);
  }

  /** Every body the newer form posts passes the column type checks, whatever files were saved. */
  lemma FormStorable(v: LeadForm.FormValues, fileData: seq<FileDescriptor>)
    ensures ApiLeads.Storable(ApiLeads.BuildLeadData(LeadForm.Payload(v), fileData))
  {
    FormLeadData(v, fileData);
  }

  /**
   * The older form posts `linkedInProfile` where the endpoint reads `website`.
   * With `website` a required text column (the `Storable` assumption), the
   * endpoint then never stores its submissions, whatever was typed.
   */
  lemma LegacyPostRejected(s: LegacyLeadForm.FormState, create: ApiLeads.CreateOutcome)
    ensures
      var req := ApiLeads.FormBody(LegacyLeadForm.Payload(s));
      GetAll(req.form, "files") == [] &&
      ApiLeads.HandlePost(req, [], create) == ApiLeads.PostFailed(ApiLeads.InvalidDataDetails)
  {
    LegacyLeadForm.PayloadKeys(s);
  }

  /** No character class of the website pattern admits `:`. */
  lemma WebsiteRestHasNoColon(r: string)
    requires LeadForm.WebsiteRest(r)
    ensures forall i :: 0 <= i < |r| ==> r[i] != ':'
  {
    var dot, tldEnd :| 0 <= dot < |r| && 0 <= tldEnd <= |r| && LeadForm.WebsiteSplit(r, dot, tldEnd);
    forall i | 0 <= i < |r| ensures r[i] != ':' {
      if i < dot {
        assert LeadForm.HostChar(r[i]);
      } else if dot < i < tldEnd {
        assert LeadForm.TldChar(r[i]);
      } else if tldEnd <= i {
        assert LeadForm.PathChar(r[i]);
      }
    }
  }

  /**
   * A website the form accepts is listed as a link to itself whose text is
   * the address without its scheme, and that text is again host, top-level
   * domain and path, with no scheme left in it.
   */
  lemma AcceptedWebsiteCell(w: string)
    requires LeadForm.ValidWebsite(w)
    ensures LeadList.WebsiteCellOf(w) == LeadList.Link(w, LeadList.StripScheme(w))
    ensures LeadForm.WebsiteRest(LeadList.StripScheme(w))
    ensures forall i :: 0 <= i < |LeadList.StripScheme(w)| ==> LeadList.StripScheme(w)[i] != ':'
  {
    if LeadForm.WebsiteRest(w) {
      WebsiteRestHasNoColon(w);
      assert !("http://" <= w) && !("https://" <= w) by {
        assert |w| > 5 ==> w[4] != ':' && w[5] != ':';
      }
    } else if "http://" <= w && LeadForm.WebsiteRest(w[7..]) {
      WebsiteRestHasNoColon(w[7..]);
    } else {
      assert "https://" <= w && LeadForm.WebsiteRest(w[8..]);
      assert !("http://" <= w) by {
        assert w[4] == 's';
      }
      WebsiteRestHasNoColon(w[8..]);
    }
  }
}
