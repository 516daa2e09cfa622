/**
 * Translation of `pyramid_oereb` records into OeREBKRMtrsfr_V2_0 entities:
 * the URL fix-up, the multilingual text and URI builders, and the office and
 * document translators.
 *
 * A Python exception raised while translating (a bare string where a dict is
 * expected, a `None` URL handed to `fix_url`) is an `Err` result.
 */
module Generators {
  import opened Wrappers
  import opened LangDict
  import opened PyramidOereb
  import opened Exchange

  predicate StartsWith(s: string, prefix: string) {
    |prefix| <= |s| && s[..|prefix|] == prefix
  }

  predicate EndsWith(s: string, suffix: string) {
    |suffix| <= |s| && s[|s| - |suffix|..] == suffix
  }

  // ---------------------------------------------------------------------------
  // URLs

  /** `fix_url`: a URL that does not start with `http` gets `https://` in front of it. */
  function FixUrl(url: string): string {
    if StartsWith(url, "http") then url else "https://" + url
  }

  /** The fixed URL starts with `http` and ends with the given one, which it equals exactly when that starts with `http`. */
  lemma FixUrlCases(url: string)
    ensures StartsWith(FixUrl(url), "http") && EndsWith(FixUrl(url), url)
    ensures FixUrl(url) == url <==> StartsWith(url, "http")
    ensures FixUrl(url) != url ==> FixUrl(url) == "https://" + url
  {
  }

  /** Fixing a fixed URL changes nothing. */
  lemma FixUrlIdempotent(url: string)
    ensures FixUrl(FixUrl(url)) == FixUrl(url)
  {
    FixUrlCases(url);
  }

  // ---------------------------------------------------------------------------
  // Multilingual texts

  /** The localised texts of a dict, in key order. */
  function LocalisedTexts(d: Dict): seq<LocalisedText> {
    seq(|d|, i requires 0 <= i < |d| => LocalisedText(d[i].lang, d[i].value))
  }

  /**
   * What `multilingual_text_from_dict` yields for an attribute. Iterating a
   * string yields its characters, and subscripting the string with one raises
   * `TypeError`; the empty string is never subscripted.
   */
  function TextFromAttr(a: Attr): Result<MultilingualText> {
    match a
    case Scalar(Null) => Ok(None)
    case Scalar(Text(s)) => if s == "" then Ok(Some([])) else Err(TypeError)
    case Mapping(d) => Ok(Some(LocalisedTexts(d)))
  }

  /** One localised text per key, in key order, each carrying the key's value. */
  lemma TextFromAttrCases(a: Attr)
    ensures a == Unset ==> TextFromAttr(a) == Ok(None)
    ensures IsOther(a) ==> (TextFromAttr(a).Ok? <==> a.v.s == "")
    ensures IsOther(a) && TextFromAttr(a).Err? ==> TextFromAttr(a).error == TypeError
    ensures a.Mapping? ==> TextFromAttr(a).Ok? && TextFromAttr(a).value.Some?
    ensures a.Mapping? ==>
      var ts := TextFromAttr(a).value.value;
      |ts| == |Keys(a.d)| &&
      forall i :: 0 <= i < |ts| ==> ts[i].language == Keys(a.d)[i] && Get(a.d, ts[i].language) == Some(ts[i].text)
  {
    if a.Mapping? {
      forall i | 0 <= i < |a.d| ensures Get(a.d, a.d[i].lang) == Some(a.d[i].value) {
        GetAt(a.d, i);
      }
    }
  }

  /** `multilingual_text_from_dict`. */
  method MultilingualTextFromDict(a: Attr) returns (r: Result<MultilingualText>)
    ensures r == TextFromAttr(a)
  {
    match a {
      case Scalar(Null) =>
        r := Ok(None);
      case Scalar(Text(s)) =>
        r := if s == "" then Ok(Some([])) else Err(TypeError);
      case Mapping(d) =>
        var texts: seq<LocalisedText> := [];
        for n := 0 to |d|
          invariant texts == LocalisedTexts(d)[..n]
        {
          var language := d[n].lang;
          GetAt(d, n);
          texts := texts + [LocalisedText(language, Get(d, language).value)];
        }
        assert LocalisedTexts(d)[..|d|] == LocalisedTexts(d);
        r := Ok(Some(texts));
    }
  }

  // ---------------------------------------------------------------------------
  // Multilingual URIs

  /** The localised URIs of dict items in order, failing at the first `None` value. */
  function LocalisedUris(es: seq<Entry>): Result<seq<LocalisedUri>> {
    if es == [] then Ok([])
    else match es[0].value
      case Null => Err(AttributeError)
      case Text(url) =>
        var rest := LocalisedUris(es[1..]);
        if rest.Err? then rest else Ok([LocalisedUri(es[0].lang, FixUrl(url))] + rest.value)
  }

  /** No item is `None`. */
  predicate AllText(es: seq<Entry>) {
    forall i :: 0 <= i < |es| ==> es[i].value.Text?
  }

  /** The URIs are built exactly when no value is `None`: one per item, in order, through `fix_url`. */
  lemma {:induction false} LocalisedUrisCases(es: seq<Entry>)
    ensures LocalisedUris(es).Ok? <==> AllText(es)
    ensures LocalisedUris(es).Err? ==> LocalisedUris(es).error == AttributeError
    ensures LocalisedUris(es).Ok? ==>
      var us := LocalisedUris(es).value;
      |us| == |es| && forall i :: 0 <= i < |es| ==> us[i] == LocalisedUri(es[i].lang, FixUrl(es[i].value.s))
  {
    if es != [] {
      var rest := LocalisedUris(es[1..]);
      LocalisedUrisCases(es[1..]);
      forall i | 1 <= i < |es| ensures es[i] == es[1..][i - 1] {
      }
      assert AllText(es) <==> es[0].value.Text? && AllText(es[1..]);
      if es[0].value.Text? && rest.Ok? {
        var us := LocalisedUris(es).value;
        assert us == [LocalisedUri(es[0].lang, FixUrl(es[0].value.s))] + rest.value;
        forall i | 1 <= i < |es| ensures us[i] == LocalisedUri(es[i].lang, FixUrl(es[i].value.s)) {
          assert us[i] == rest.value[i - 1];
        }
      }
    }
  }

  /** What `multilingual_uri_from_dict` yields for an attribute; strings fail as in `TextFromAttr`. */
  function UriFromAttr(a: Attr): Result<MultilingualUri> {
    match a
    case Scalar(Null) => Ok(None)
    case Scalar(Text(s)) => if s == "" then Ok(Some([])) else Err(TypeError)
    case Mapping(d) =>
      var us := LocalisedUris(d);
      if us.Err? then Err(us.error) else Ok(Some(us.value))
  }

  /** One localised URI per key, in key order, each the fixed URL of its key's value; a `None` value fails. */
  lemma UriFromAttrCases(a: Attr)
    ensures a == Unset ==> UriFromAttr(a) == Ok(None)
    ensures IsOther(a) ==> (UriFromAttr(a).Ok? <==> a.v.s == "")
    ensures IsOther(a) && UriFromAttr(a).Err? ==> UriFromAttr(a).error == TypeError
    ensures a.Mapping? && UriFromAttr(a).Ok? ==> forall k :: Get(a.d, k) != Some(Null)
    ensures a.Mapping? && (forall k :: Get(a.d, k) != Some(Null)) ==> UriFromAttr(a).Ok?
    ensures a.Mapping? && UriFromAttr(a).Err? ==> UriFromAttr(a).error == AttributeError
    ensures a.Mapping? && UriFromAttr(a).Ok? ==> UriFromAttr(a).value.Some?
    ensures a.Mapping? && UriFromAttr(a).Ok? ==>
      var us := UriFromAttr(a).value.value;
      |us| == |Keys(a.d)| &&
      forall i :: 0 <= i < |us| ==> (us[i].language == Keys(a.d)[i] &&
        exists url :: Get(a.d, us[i].language) == Some(Text(url)) && us[i].uri == FixUrl(url))
  {
    if a.Mapping? {
      var d := a.d;
      LocalisedUrisCases(d);
      forall i | 0 <= i < |d| ensures Get(d, d[i].lang) == Some(d[i].value) {
        GetAt(d, i);
      }
      if !AllText(d) {
        var i :| 0 <= i < |d| && !d[i].value.Text?;
        assert Get(d, d[i].lang) == Some(Null);
        assert UriFromAttr(a) == Err(AttributeError);
        assert !(forall k :: Get(a.d, k) != Some(Null));
      } else {
        forall k ensures Get(d, k) != Some(Null) {
          GetFound(d, k);
        }
        var us := LocalisedUris(d).value;
        forall i | 0 <= i < |us|
          ensures exists url :: Get(d, us[i].language) == Some(Text(url)) && us[i].uri == FixUrl(url)
        {
          assert Get(d, us[i].language) == Some(Text(d[i].value.s));
        }
      }
    }
  }

  /**
   * Together with `make_office_at_web_multilingual`: a single office URL
   * becomes one fixed localised URI in the read's language, and a missing one
   * (`None`, wrapped as `{language: None}`) makes the translation fail.
   */
  lemma WrappedOfficeUrl(a: Attr, language: string)
    requires a.Scalar?
    ensures a == Unset ==> UriFromAttr(AtWebMultilingual(a, language)) == Err(AttributeError)
    ensures a.v.Text? ==>
      UriFromAttr(AtWebMultilingual(a, language)) == Ok(Some([LocalisedUri(language, FixUrl(a.v.s))]))
  {
    var es := [Entry(language, a.v)];
    assert es[1..] == [];
    assert LocalisedUris(es[1..]) == Ok([]);
    if a.v.Text? {
      var u := LocalisedUri(language, FixUrl(a.v.s));
      assert [u] + [] == [u];
      assert LocalisedUris(es) == Ok([u] + []);
    }
  }

  /** The loop of `multilingual_uri_from_dict` over the dict's items. */
  method FixedUris(d: Dict) returns (r: Result<seq<LocalisedUri>>)
    ensures r == LocalisedUris(d)
  {
    LocalisedUrisCases(d);
    var uris: seq<LocalisedUri> := [];
    for n := 0 to |d|
      invariant AllText(d[..n])
      invariant |uris| == n
      invariant forall i :: 0 <= i < n ==> uris[i] == LocalisedUri(d[i].lang, FixUrl(d[i].value.s))
    {
      var language := d[n].lang;
      GetAt(d, n);
      var url := Get(d, language).value;
      if url.Null? {
        // `fix_url(None)`: `None` has no `startswith`
        assert !AllText(d);
        return Err(AttributeError);
      }
      uris := uris + [LocalisedUri(language, FixUrl(url.s))];
    }
    assert d[..|d|] == d;
    assert LocalisedUris(d).value == uris;
    r := Ok(uris);
  }

  /** `multilingual_uri_from_dict`. */
  method MultilingualUriFromDict(a: Attr) returns (r: Result<MultilingualUri>)
    ensures r == UriFromAttr(a)
  {
    match a {
      case Scalar(Null) =>
        r := Ok(None);
      case Scalar(Text(s)) =>
        r := if s == "" then Ok(Some([])) else Err(TypeError);
      case Mapping(d) =>
        var uris := FixedUris(d);
        r := if uris.Err? then Err(uris.error) else Ok(Some(uris.value));
    }
  }

  // ---------------------------------------------------------------------------
  // Offices and documents

  /** The office `office_record_to_oerebkrmtrsfr` builds; the name is translated before the web address. */
  function AmtOf(o: OfficeValue): Result<AmtValue> {
    var name := TextFromAttr(o.name);
    var web := UriFromAttr(o.officeAtWeb);
    if name.Err? then Err(name.error)
    else if web.Err? then Err(web.error)
    else Ok(AmtValue(name.value, web.value, o.uid, o.line1, o.line2, o.street, o.number, o.postalCode, o.city, None))
  }

  /** The office's fields are the record's, the name and web address going through their builders. */
  lemma AmtOfFields(o: OfficeValue)
    ensures var r := AmtOf(o);
      (r.Ok? <==> TextFromAttr(o.name).Ok? && UriFromAttr(o.officeAtWeb).Ok?) &&
      (TextFromAttr(o.name).Err? ==> r == Err(TextFromAttr(o.name).error)) &&
      (r.Ok? ==> r.value.name == TextFromAttr(o.name).value && r.value.amtImWeb == UriFromAttr(o.officeAtWeb).value) &&
      (r.Ok? ==> r.value.uid == o.uid && r.value.zeile1 == o.line1 && r.value.zeile2 == o.line2) &&
      (r.Ok? ==> r.value.strasse == o.street && r.value.hausnr == o.number) &&
      (r.Ok? ==> r.value.plz == o.postalCode && r.value.ort == o.city && r.value.tid == None)
  {
  }

  /** `office_record_to_oerebkrmtrsfr`. */
  method OfficeRecordToAmt(office: OfficeRecord) returns (r: Result<Amt>)
    ensures r.Ok? <==> AmtOf(office.Value()).Ok?
    ensures r.Err? ==> r.error == AmtOf(office.Value()).error
    ensures r.Ok? ==> fresh(r.value) && r.value.Value() == AmtOf(office.Value()).value
  {
    var name := MultilingualTextFromDict(office.name);
    if name.Err? {
      return Err(name.error);
    }
    var web := MultilingualUriFromDict(office.officeAtWeb);
    if web.Err? {
      return Err(web.error);
    }
    var amt := new Amt(AmtValue(
      name.value, web.value, office.uid, office.line1, office.line2,
      office.street, office.number, office.postalCode, office.city, None));
    r := Ok(amt);
  }

  /** The document together with its office, the document's `TID` already set. */
  function DokumentOf(v: DocumentValue, str: Stringify): Result<(DokumentValue, AmtValue)>
  {
    var amt := AmtOf(v.office);
    var titel := TextFromAttr(v.title);
    var abkuerzung := TextFromAttr(v.abbreviation);
    var nr := TextFromAttr(v.officialNumber);
    var web := UriFromAttr(v.textAtWeb);
    if amt.Err? then Err(amt.error)
    else if titel.Err? then Err(titel.error)
    else if abkuerzung.Err? then Err(abkuerzung.error)
    else if nr.Err? then Err(nr.error)
    else if web.Err? then Err(web.error)
    else
      var dokument := DokumentValue(
        v.documentType.code, titel.value, abkuerzung.value, nr.value, v.onlyInMunicipality, web.value,
        v.index, v.lawStatus.code, v.publishedFrom, v.publishedUntil, str.amt(amt.value), None);
      Ok((dokument.(tid := Some(str.dokument(dokument))), amt.value))
  }

  /**
   * The document refers to its office by the office's `str`, carries its own
   * `str` as `TID`, and copies type, law status, index, municipality and dates.
   */
  lemma DokumentOfFields(v: DocumentValue, str: Stringify)
    ensures var r := DokumentOf(v, str);
      (r.Ok? <==>
        AmtOf(v.office).Ok? && TextFromAttr(v.title).Ok? && TextFromAttr(v.abbreviation).Ok? &&
        TextFromAttr(v.officialNumber).Ok? && UriFromAttr(v.textAtWeb).Ok?) &&
      (AmtOf(v.office).Err? ==> r == Err(AmtOf(v.office).error)) &&
      (r.Ok? ==> Ok(r.value.1) == AmtOf(v.office)) &&
      (r.Ok? ==> r.value.0.ref == str.amt(r.value.1)) &&
      (r.Ok? ==> r.value.0.tid == Some(str.dokument(r.value.0.(tid := None)))) &&
      (r.Ok? ==> r.value.0.typ == v.documentType.code && r.value.0.rechtsstatus == v.lawStatus.code) &&
      (r.Ok? ==> r.value.0.auszugIndex == v.index && r.value.0.nurInGemeinde == v.onlyInMunicipality) &&
      (r.Ok? ==> r.value.0.publiziertAb == v.publishedFrom && r.value.0.publiziertBis == v.publishedUntil) &&
      (r.Ok? ==> r.value.0.titel == TextFromAttr(v.title).value) &&
      (r.Ok? ==> r.value.0.abkuerzung == TextFromAttr(v.abbreviation).value) &&
      (r.Ok? ==> r.value.0.offizielleNr == TextFromAttr(v.officialNumber).value) &&
      (r.Ok? ==> r.value.0.textImWeb == UriFromAttr(v.textAtWeb).value)
  {
  }

  /** `document_record_to_oerebkrmtrsfr`: the document and its office, both new. */
  method DocumentRecordToExchange(record: DocumentRecord, str: Stringify) returns (r: Result<(Dokument, Amt)>)
    ensures r.Ok? <==> DokumentOf(record.Value(), str).Ok?
    ensures r.Err? ==> r.error == DokumentOf(record.Value(), str).error
    ensures r.Ok? ==> fresh(r.value.0) && fresh(r.value.1)
    ensures r.Ok? ==> (r.value.0.Value(), r.value.1.Value()) == DokumentOf(record.Value(), str).value
  {
    var amt := OfficeRecordToAmt(record.responsibleOffice);
    if amt.Err? {
      return Err(amt.error);
    }
    var titel := MultilingualTextFromDict(record.title);
    if titel.Err? {
      return Err(titel.error);
    }
    var abkuerzung := MultilingualTextFromDict(record.abbreviation);
    if abkuerzung.Err? {
      return Err(abkuerzung.error);
    }
    var nr := MultilingualTextFromDict(record.officialNumber);
    if nr.Err? {
      return Err(nr.error);
    }
    var web := MultilingualUriFromDict(record.textAtWeb);
    if web.Err? {
      return Err(web.error);
    }
    var dokument := new Dokument(DokumentValue(
      record.documentType.code, titel.value, abkuerzung.value, nr.value, record.onlyInMunicipality,
      web.value, record.index, record.lawStatus.code, record.publishedFrom, record.publishedUntil,
      str.amt(amt.value.Value()), None));
    dokument.tid := Some(str.dokument(dokument.Value()));
    r := Ok((dokument, amt.value));
  }
}
