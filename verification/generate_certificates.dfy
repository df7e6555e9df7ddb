/** The certificate generator: how each product row is cleaned before it is laid out on
    a page, and what the generator hands back to its caller. Fonts, cell geometry, the
    QR image and the per-page random identifier are layout and are not modelled. */
module GenerateCertificates {
  import opened Outcomes
  import opened Text
  import opened Dict

  const PartitionKey := "PK"
  const SortKey := "SK"
  const UserKey := "User"

  /** Where the generator writes the document (`output_path` keeps its default). */
  const OutputFile := "/tmp/certificate.pdf"
  const DefaultQrWebsite := "https://san99tiago.com"

  /** One step of the cleaning loop: the partition key becomes the user, the sort key
      is skipped, anything else is copied. */
  function CleanEntry(acc: Dict, e: (string, string)): Dict
  {
    if e.0 == PartitionKey then Put(acc, UserKey, LastSegment(e.1, '#'))
    else if e.0 == SortKey then acc
    else Put(acc, e.0, e.1)
  }

  /** `clean_product_data`: the entries are visited in insertion order. The key set of
      the result is the product's minus the two table keys, plus "User" exactly when
      the product had a partition key. */
  function CleanProductData(product: Dict): (r: Dict)
    ensures Keys(r) == Keys(product) - {PartitionKey, SortKey}
                       + (if PartitionKey in Keys(product) then {UserKey} else {})
    ensures UniqueKeys(r)
  {
    if |product| == 0 then []
    else
      var p := product[..|product| - 1];
      var e := product[|product| - 1];
      assert product == p + [e];
      var acc := CleanProductData(p);
      Snoc(p, e);
      CleanEntryKeys(acc, e);
      KeySetStep(Keys(p), e.0, Keys(acc));
      CleanEntry(acc, e)
  }

  /** The key-set contract survives one more entry. */
  lemma KeySetStep(before: set<string>, k: string, cleaned: set<string>)
    requires cleaned == before - {PartitionKey, SortKey}
                        + (if PartitionKey in before then {UserKey} else {})
    ensures (if k == PartitionKey then cleaned + {UserKey}
             else if k == SortKey then cleaned
             else cleaned + {k})
            == (before + {k}) - {PartitionKey, SortKey}
               + (if PartitionKey in before + {k} then {UserKey} else {})
  {
    KeyNamesDistinct();
  }

  lemma KeyNamesDistinct()
    ensures PartitionKey != SortKey && PartitionKey != UserKey && SortKey != UserKey
  {
    assert PartitionKey[0] == 'P' && SortKey[0] == 'S' && UserKey[0] == 'U';
  }

  /** The key set after one step of the cleaning loop. */
  lemma CleanEntryKeys(acc: Dict, e: (string, string))
    ensures Keys(CleanEntry(acc, e)) ==
      if e.0 == PartitionKey then Keys(acc) + {UserKey}
      else if e.0 == SortKey then Keys(acc)
      else Keys(acc) + {e.0}
    ensures UniqueKeys(acc) ==> UniqueKeys(CleanEntry(acc, e))
  {
    KeyNamesDistinct();
  }

  /** Every key other than the two table keys and "User" keeps its value. */
  lemma {:induction false} CleanKeepsOtherValues(product: Dict, k: string)
    requires UniqueKeys(product)
    requires k != PartitionKey && k != SortKey && k != UserKey
    ensures Get(CleanProductData(product), k) == Get(product, k)
  {
    if |product| > 0 {
      var p := product[..|product| - 1];
      var e := product[|product| - 1];
      assert product == p + [e];
      UniqueSnoc(p, e);
      Snoc(p, e);
      CleanKeepsOtherValues(p, k);
      CleanKeys(p, k);
    }
  }

  /** A key is present after cleaning iff the key set contract says so (pointwise form). */
  lemma CleanKeys(product: Dict, k: string)
    ensures k in Keys(CleanProductData(product)) <==>
      (k in Keys(product) && k != PartitionKey && k != SortKey)
      || (k == UserKey && PartitionKey in Keys(product))
  {
  }

  /** The value under "User": the text after the last '#' of the partition key when the
      partition key is the later of the two entries (or there is no "User" entry), and
      the product's own "User" value otherwise. */
  lemma {:induction false} CleanUserValue(product: Dict)
    requires UniqueKeys(product)
    ensures PartitionKey in Keys(product)
            && (UserKey !in Keys(product) || IndexOf(product, UserKey) < IndexOf(product, PartitionKey))
            ==> Get(CleanProductData(product), UserKey)
                == Some(LastSegment(Get(product, PartitionKey).value, '#'))
    ensures PartitionKey !in Keys(product)
            || (UserKey in Keys(product) && IndexOf(product, PartitionKey) < IndexOf(product, UserKey))
            ==> Get(CleanProductData(product), UserKey) == Get(product, UserKey)
  {
    if |product| > 0 {
      var p := product[..|product| - 1];
      var e := product[|product| - 1];
      assert product == p + [e];
      UniqueSnoc(p, e);
      Snoc(p, e);
      CleanUserValue(p);
      KeyNamesDistinct();
      var acc := CleanProductData(p);
      assert CleanProductData(product) == CleanEntry(acc, e);
      if e.0 == PartitionKey {
        assert Get(product, PartitionKey) == Some(e.1);
        assert IndexOf(product, PartitionKey) == |p|;
        assert Get(CleanEntry(acc, e), UserKey) == Some(LastSegment(e.1, '#'));
      } else if e.0 == UserKey {
        assert Get(product, UserKey) == Some(e.1);
        assert IndexOf(product, UserKey) == |p|;
        assert Get(CleanEntry(acc, e), UserKey) == Some(e.1);
      } else {
        assert Get(CleanEntry(acc, e), UserKey) == Get(acc, UserKey);
        assert Get(product, UserKey) == Get(p, UserKey);
        assert Get(product, PartitionKey) == Get(p, PartitionKey);
      }
    }
  }

  /** One page of the certificate: the subtitle, the cleaned key/value table and the
      link the QR code encodes. */
  datatype Page = Page(subtitle: string, rows: Dict, qrLink: string)

  /** What the generator did: the pages it laid out, the file it saved, and the value
      it returned to its caller. */
  datatype Rendering = Rendering(pages: seq<Page>, savedTo: string, returned: Option<string>)

  function Subtitle(generatedAt: string, location: string): string
  {
    "Generated at: " + generatedAt + ", Location: " + location
  }

  /** The page loop: one page per product, in order. */
  function Pages(products: seq<Dict>, subtitle: string, qrLink: string): (pages: seq<Page>)
    ensures |pages| == |products|
    ensures forall i :: 0 <= i < |products| ==>
      pages[i] == Page(subtitle, CleanProductData(products[i]), qrLink)
  {
    if |products| == 0 then []
    else
      var last := products[|products| - 1];
      Pages(products[..|products| - 1], subtitle, qrLink) + [Page(subtitle, CleanProductData(last), qrLink)]
  }

  /** The pages of a certificate for `products`, as the page loop lays them out. */
  function CertificatePages(products: seq<Dict>, location: string, generatedAt: string,
                            qrWebsite: Option<string>): seq<Page>
  {
    Pages(products, Subtitle(generatedAt, location), qrWebsite.GetOr(DefaultQrWebsite))
  }

  /** `generate_certificate_pdf`: the time stamp and the QR_WEBSITE setting are inputs.
      `render` is the outcome of drawing and saving the pages with the PDF and QR
      libraries; it raises, for instance, where the core font cannot encode a product's
      text or a temporary file cannot be written. On success the document is saved to a
      fixed path, but the function has no return statement, so its caller receives no
      path. */
  function GenerateCertificatePdf(products: seq<Dict>, location: string, generatedAt: string,
                                  qrWebsite: Option<string>, render: seq<Page> -> Result<NoValue>): (r: Result<Rendering>)
    // A rendering failure propagates unchanged.
    ensures r.Raised? <==> render(CertificatePages(products, location, generatedAt, qrWebsite)).Raised?
    ensures r.Raised? ==> r.error == render(CertificatePages(products, location, generatedAt, qrWebsite)).error
    // Otherwise one page per product, in order, each with the subtitle and the cleaned rows.
    ensures r.Ok? ==> |r.value.pages| == |products|
    ensures r.Ok? ==> forall i :: 0 <= i < |products| ==> r.value.pages[i].rows == CleanProductData(products[i])
    ensures r.Ok? ==> forall i :: 0 <= i < |products| ==>
      r.value.pages[i].subtitle == "Generated at: " + generatedAt + ", Location: " + location
    ensures r.Ok? ==> r.value.savedTo == OutputFile && r.value.returned == None
  {
    var pages := CertificatePages(products, location, generatedAt, qrWebsite);
    match render(pages)
    case Raised(err) => Raised(err)
    case Ok(_) => Ok(Rendering(pages, OutputFile, None))
  }
}
