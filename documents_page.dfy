/** The documents page's decisions: which list it fetches, whether it fetches
    the employee list, the upload form it submits, and the search filter. */
module DocumentsPage {
  import opened Common
  import opened Text
  import opened Seqs
  import opened Tables
  import opened DocumentRoutes

  const SentEndpoint := "/documents/sent"
  const MineEndpoint := "/documents/mine"

  /** `fetchDocuments`: a hospital lists what it sent, anyone else (or a page
      with no user yet) what it received. */
  function DocumentsEndpoint(role: Option<Role>): (path: string)
    ensures path == SentEndpoint <==> role == Some(Hospital)
    ensures path == MineEndpoint <==> role != Some(Hospital)
  {
    if role == Some(Hospital) then SentEndpoint else MineEndpoint
  }

  /** The employee list is fetched only for a hospital. */
  predicate FetchesEmployees(role: Option<Role>) {
    role == Some(Hospital)
  }

  /** The page that lists sent documents is the one that can pick a recipient. */
  lemma EmployeesOnlyWithSentList(role: Option<Role>)
    ensures FetchesEmployees(role) <==> DocumentsEndpoint(role) == SentEndpoint
    ensures !FetchesEmployees(role) ==> DocumentsEndpoint(role) == MineEndpoint
  {
  }

  /** The upload form's state: the chosen file (if any), the selected
      employee's id as the select box holds it, and the month text. */
  datatype UploadForm = UploadForm(file: Option<UploadedFile>, employeeId: string, month: string)

  /** A value appended to the `FormData`. */
  datatype FormValue = FileValue(file: UploadedFile) | TextValue(text: string)

  /** What `handleUpload` does: refuse with a toast and send nothing, or send
      the form fields. */
  datatype UploadAction = Refuse(message: string) | Submit(fields: seq<(string, FormValue)>)

  const FillAllFields := "Preencha todos os campos."

  predicate FormComplete(form: UploadForm) {
    form.file.Some? && form.employeeId != "" && form.month != ""
  }

  /** `handleUpload`: with the file, the employee or the month missing no
      request goes out; otherwise exactly `document`, `user_id` and `month`
      are sent, in that order, carrying the form's values. */
  function HandleUpload(form: UploadForm): (act: UploadAction)
    ensures act.Refuse? <==> !FormComplete(form)
    ensures act.Refuse? ==> act.message == FillAllFields
    ensures act.Submit? ==>
      |act.fields| == 3 &&
      act.fields[0] == ("document", FileValue(form.file.value)) &&
      act.fields[1] == ("user_id", TextValue(form.employeeId)) &&
      act.fields[2] == ("month", TextValue(form.month))
  {
    if !FormComplete(form) then Refuse(FillAllFields)
    else Submit([("document", FileValue(form.file.value)),
                 ("user_id", TextValue(form.employeeId)),
                 ("month", TextValue(form.month))])
  }

  /** The text value of a named field, as `req.body` sees it. */
  function TextField(fields: seq<(string, FormValue)>, name: string): (v: Option<string>)
    ensures v.Some? <==> exists i | 0 <= i < |fields| :: fields[i].0 == name && fields[i].1.TextValue?
    ensures v.Some? ==> exists i | 0 <= i < |fields| :: fields[i] == (name, TextValue(v.value))
  {
    if fields == [] then None
    else if fields[0].0 == name && fields[0].1.TextValue? then Some(fields[0].1.text)
    else
      var v := TextField(fields[1..], name);
      assert forall i | 1 <= i < |fields| :: fields[i] == fields[1..][i - 1];
      v
  }

  /** The page sends no `file_name`, so the stored title is always the file's
      original name; and the month reaches the server as typed. */
  lemma UploadTitleIsOriginalName(form: UploadForm)
    requires FormComplete(form)
    ensures var act := HandleUpload(form);
      act.Submit? &&
      DocumentTitle(TextField(act.fields, "file_name"), form.file.value) == form.file.value.originalName &&
      TextField(act.fields, "month") == Some(form.month)
  {
    var act := HandleUpload(form);
    assert TextField(act.fields, "file_name").None? by {
      forall i | 0 <= i < |act.fields| ensures act.fields[i].0 != "file_name" {
        assert act.fields[i].0 in {"document", "user_id", "month"};
      }
    }
  }

  /** A document as the page holds it: `/sent` rows carry the recipient's
      name, `/mine` rows the sender's. */
  datatype DocView = DocView(
    id: nat,
    fileName: string,
    fileUrl: string,
    month: Option<string>,
    createdAt: nat,
    uploaderName: Option<string>,
    recipientName: Option<string>)

  function SentView(row: SentRow): DocView {
    var d := row.document;
    DocView(d.id, d.fileName, d.fileUrl, d.month, d.createdAt, None, row.recipientName)
  }

  function ReceivedView(row: ReceivedRow): DocView {
    var d := row.document;
    DocView(d.id, d.fileName, d.fileUrl, d.month, d.createdAt, row.uploaderName, None)
  }

  /** A document is kept when the term occurs, ignoring case, in its title, or
      in the recipient's or the sender's name when that name is non-empty. */
  predicate DocMatches(doc: DocView, term: string) {
    MatchesTerm(doc.fileName, term) ||
    (Truthy(doc.recipientName) && MatchesTerm(doc.recipientName.value, term)) ||
    (Truthy(doc.uploaderName) && MatchesTerm(doc.uploaderName.value, term))
  }

  function DocMatchesOf(term: string): DocView -> bool {
    (doc: DocView) => DocMatches(doc, term)
  }

  /** `filteredDocs`. */
  function FilterDocs(docs: seq<DocView>, term: string): (r: seq<DocView>)
    ensures forall doc :: doc in r <==> doc in docs && DocMatches(doc, term)
    ensures Subseq(r, docs)
  {
    Filter(docs, DocMatchesOf(term))
  }

  /** An empty search box shows every document, in order. */
  lemma EmptyDocSearchKeepsAll(docs: seq<DocView>)
    ensures FilterDocs(docs, "") == docs
  {
    forall doc | doc in docs ensures DocMatches(doc, "") {
      EmptyTermMatches(doc.fileName);
    }
    FilterKeepsAll(docs, DocMatchesOf(""));
  }

  /** On a hospital's page, searching for a recipient's name finds every
      document sent to that recipient, whatever the case typed. */
  lemma RecipientNameFindsSent(row: SentRow, docs: seq<DocView>)
    requires SentView(row) in docs && Truthy(row.recipientName)
    ensures SentView(row) in FilterDocs(docs, row.recipientName.value)
    ensures SentView(row) in FilterDocs(docs, Lower(row.recipientName.value))
  {
    var n := row.recipientName.value;
    TermMatchesItself(n);
    MatchIgnoresTermCase(n, n);
  }

  /** On a professional's page, a sender's name matches only the documents
      whose title or sender name contains it: no recipient name takes part. */
  lemma ReceivedMatchIgnoresRecipient(row: ReceivedRow, term: string)
    ensures DocMatches(ReceivedView(row), term) <==>
      MatchesTerm(row.document.fileName, term) ||
      (Truthy(row.uploaderName) && MatchesTerm(row.uploaderName.value, term))
  {
  }
}
