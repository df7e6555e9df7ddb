/** The certificates action group: renders the sender's products into a certificate,
    uploads it and sends the link to the sender. */
module BankCertificates {
  import opened Outcomes
  import opened Dict
  import opened Text
  import opened ActionGroups
  import opened GenerateCertificates

  const ActionGroupName := "GenerateCertificates"
  const TaggedActionGroupName := "<GenerateCertificates>"
  const SenderParameter := "from_number"
  const ProductPrefix := "PRODUCT#"
  const Location := "Medellin, Colombia"
  const SuccessText := "Certificate generated successfully for Rufus client!"

  function Accepted(): set<string>
  {
    {ActionGroupName, TaggedActionGroupName}
  }

  /** The object-store key for a certificate with the given random id. */
  function ObjectName(objectId: string): string
  {
    "certificates/" + objectId + "/rufus_certificate.pdf"
  }

  /** Distinct ids give distinct keys, so certificates never overwrite each other. */
  lemma ObjectNameInjective(a: string, b: string)
    requires ObjectName(a) == ObjectName(b)
    ensures a == b
  {
    CancelAround("certificates/", a, b, "/rufus_certificate.pdf");
  }

  /** The renderer's outcome on the products stored under `key`. */
  function Rendered(store: (string, string) -> seq<Dict>, key: string, generatedAt: string,
                    qrWebsite: Option<string>, render: seq<Page> -> Result<NoValue>): Result<NoValue>
  {
    render(CertificatePages(store(key, ProductPrefix), Location, generatedAt, qrWebsite))
  }

  /** `action_group_generate_certificates`. `store` answers the product query,
      `generatedAt` and `qrWebsite` are the clock reading and the QR setting the renderer
      sees, `render` is the outcome of drawing the pages, `objectId` is the random id and
      `upload` the uploader's answer (a link or an error text) for a file path and an
      object name. The send's answer is not used. */
  function GenerateCertificatesAction(params: seq<Param>, store: (string, string) -> seq<Dict>,
                                      generatedAt: string, qrWebsite: Option<string>,
                                      render: seq<Page> -> Result<NoValue>, objectId: string,
                                      upload: (Option<string>, string) -> string): (r: Run<Payload>)
    ensures r.calls == [] <==> exists i :: 0 <= i < |params| && Faulty(params[i], SenderParameter)
    ensures r.calls == [] ==> r.result.Raised?
    // Past the scan the products are queried first.
    ensures r.calls != [] ==>
      r.calls[0] == Query(UserPartition(LastValue(params, SenderParameter, None)), ProductPrefix)
    // A rendering failure stops the action after the query: no upload and no send.
    ensures r.calls != [] ==>
      var rendered := Rendered(store, UserPartition(LastValue(params, SenderParameter, None)), generatedAt, qrWebsite, render);
      rendered.Raised? ==> r.result == Raised(rendered.error) && |r.calls| == 1
    // Otherwise an upload of the path the renderer returned, which is no path at all.
    ensures r.calls != [] ==>
      var rendered := Rendered(store, UserPartition(LastValue(params, SenderParameter, None)), generatedAt, qrWebsite, render);
      rendered.Ok? ==> |r.calls| >= 2 && r.calls[1] == Upload(None, ObjectName(objectId))
    // Without a `from_number` parameter the send cannot happen.
    ensures r.calls != [] && LastValue(params, SenderParameter, None).None? ==>
      var rendered := Rendered(store, UserPartition(None), generatedAt, qrWebsite, render);
      rendered.Ok? ==> r.result == Raised(UnboundName(SenderParameter)) && |r.calls| == 2
    // With one, the link goes to that number and the fixed text is the result.
    ensures r.calls != [] && LastValue(params, SenderParameter, None).Some? ==>
      var number := LastValue(params, SenderParameter, None).value;
      var rendered := Rendered(store, UserPartition(Some(number)), generatedAt, qrWebsite, render);
      rendered.Ok? ==>
        && |r.calls| == 3
        && r.calls[2] == SendDocument(number, upload(None, ObjectName(objectId)))
        && r.result == Ok(Text(SuccessText))
  {
    match ScanParameter(params, SenderParameter, None)
    case Raised(err) => Run(Raised(err), [])
    case Ok(fromNumber) =>
      var query := Query(UserPartition(fromNumber), ProductPrefix);
      var products := store(query.partitionKey, query.sortKeyPrefix);
      match GenerateCertificatePdf(products, Location, generatedAt, qrWebsite, render)
      case Raised(err) => Run(Raised(err), [query])
      case Ok(rendering) =>
        var localPath := rendering.returned;
        var objectName := ObjectName(objectId);
        var url := upload(localPath, objectName);
        var calls := [query, Upload(localPath, objectName)];
        match fromNumber
        case None => Run(Raised(UnboundName(SenderParameter)), calls)
        case Some(number) => Run(Ok(Text(SuccessText)), calls + [SendDocument(number, url)])
  }

  /** `lambda_handler`: exactly the two spellings are served. */
  function LambdaHandler(event: ActionEvent, store: (string, string) -> seq<Dict>,
                         generatedAt: string, qrWebsite: Option<string>,
                         render: seq<Page> -> Result<NoValue>, objectId: string,
                         upload: (Option<string>, string) -> string): (r: Run<Envelope>)
    ensures event.actionGroup.Some? && event.actionGroup.value !in Accepted() ==>
      r.result.Raised? && r.calls == []
    ensures r.result.Ok? <==>
      && event.actionGroup.Some? && event.actionGroup.value in Accepted()
      && event.functionName.Some? && event.messageVersion.Some?
      && (forall i :: 0 <= i < |event.parameters.GetOr([])| ==> !Faulty(event.parameters.GetOr([])[i], SenderParameter))
      && LastValue(event.parameters.GetOr([]), SenderParameter, None).Some?
      && Rendered(store, UserPartition(LastValue(event.parameters.GetOr([]), SenderParameter, None)),
                  generatedAt, qrWebsite, render).Ok?
    ensures r.result.Ok? ==>
      r.result.value == Envelope(event.actionGroup.value, event.functionName.value, Text(SuccessText),
                                 event.messageVersion.value)
  {
    Handle(event, Accepted(),
           params => GenerateCertificatesAction(params, store, generatedAt, qrWebsite, render, objectId, upload))
  }

  /** The result never depends on what the uploader answers, and depends on the stored
      products only through the renderer's outcome on them: two stores whose products
      render alike give the same result. */
  lemma ResultIndependentOfServices(params: seq<Param>, s1: (string, string) -> seq<Dict>, s2: (string, string) -> seq<Dict>,
                                    generatedAt: string, qrWebsite: Option<string>,
                                    render: seq<Page> -> Result<NoValue>, objectId: string,
                                    u1: (Option<string>, string) -> string, u2: (Option<string>, string) -> string)
    ensures var key := UserPartition(LastValue(params, SenderParameter, None));
      Rendered(s1, key, generatedAt, qrWebsite, render) == Rendered(s2, key, generatedAt, qrWebsite, render) ==>
        GenerateCertificatesAction(params, s1, generatedAt, qrWebsite, render, objectId, u1).result
        == GenerateCertificatesAction(params, s2, generatedAt, qrWebsite, render, objectId, u2).result
  {
  }
}
