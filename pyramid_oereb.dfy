/**
 * The interface to the `pyramid_oereb` records: merging the per-language
 * variants of a document into one multilingual record, the code lookups of the
 * configuration, the title and filter rules of the custom ÖREBlex source, and
 * the merge and remap loops of `load`.
 *
 * Configuration loading, the dotted-name class lookup and the HTTP reads are
 * not modelled: `load` receives the language list, one record list per
 * language and the lookup tables of the theme.
 */
module PyramidOereb {
  import opened Wrappers
  import opened LangDict

  // ---------------------------------------------------------------------------
  // Multilingual attributes

  /** A record attribute: `None` or another plain value, or a dict from language to value. */
  datatype Attr = Scalar(v: Value) | Mapping(d: Dict)

  /** Python `None`. */
  const Unset: Attr := Scalar(Null)

  /** A value that is neither `None` nor a dict (a bare string). */
  predicate IsOther(a: Attr) {
    a.Scalar? && a.v.Text?
  }

  /** `merge_attribute`. */
  function MergeAttribute(master: Attr, merger: Attr): Attr {
    if master == Unset && merger == Unset then Unset
    else if master == Unset && merger.Mapping? then merger
    else if merger == Unset && master.Mapping? then master
    else if master.Mapping? && merger.Mapping? then Mapping(Union(master.d, merger.d))
    else Unset
  }

  /**
   * `merge_attribute` keeps the side that is set when the other is `None`,
   * joins two dicts with the merger's value winning on a shared language, and
   * gives `None` for every other combination.
   */
  lemma MergeAttributeCases(master: Attr, merger: Attr)
    ensures var r := MergeAttribute(master, merger);
      && (master == Unset && merger == Unset ==> r == Unset)
      && (master == Unset && merger.Mapping? ==> r == merger)
      && (master.Mapping? && merger == Unset ==> r == master)
      && (master.Mapping? && merger.Mapping? ==>
            && r.Mapping?
            && (forall k :: k in Keys(r.d) <==> k in Keys(master.d) || k in Keys(merger.d))
            && (forall k :: k in Keys(merger.d) ==> Get(r.d, k) == Get(merger.d, k))
            && (forall k :: k !in Keys(merger.d) ==> Get(r.d, k) == Get(master.d, k)))
      && (IsOther(master) || IsOther(merger) ==> r == Unset)
  {
    if master.Mapping? && merger.Mapping? {
      UnionKeySet(master.d, merger.d);
      forall k ensures Get(Union(master.d, merger.d), k) == if k in Keys(merger.d) then Get(merger.d, k) else Get(master.d, k) {
        UnionGet(master.d, merger.d, k);
      }
    }
  }

  /** Merging the same merger again changes nothing, unless the master was a bare string. */
  lemma {:induction false} MergeAttributeIdempotent(master: Attr, merger: Attr)
    ensures MergeAttribute(MergeAttribute(master, merger), merger) == MergeAttribute(master, merger)
        <==> !(IsOther(master) && merger.Mapping?)
  {
    if master.Mapping? && merger.Mapping? {
      UnionIdempotent(master.d, merger.d);
    } else if master == Unset && merger.Mapping? {
      UnionSelf(merger.d);
    } else if IsOther(master) && merger.Mapping? {
      assert MergeAttribute(master, merger) == Unset;
      assert MergeAttribute(Unset, merger) == merger;
    }
  }

  /** A record attribute merged with itself is unchanged when it is `None` or a dict. */
  lemma MergeAttributeSelf(a: Attr)
    ensures MergeAttribute(a, a) == (if IsOther(a) then Unset else a)
  {
    if a.Mapping? {
      UnionSelf(a.d);
    }
  }

  // ---------------------------------------------------------------------------
  // Records

  /** A calendar date, copied through unchanged. */
  datatype Date = Date(year: int, month: int, day: int)

  datatype OfficeValue = OfficeValue(
    name: Attr, officeAtWeb: Attr, uid: Option<string>,
    line1: Option<string>, line2: Option<string>, street: Option<string>, number: Option<string>,
    postalCode: Option<int>, city: Option<string>)

  datatype DocumentTypeValue = DocumentTypeValue(code: Option<string>, title: Attr)

  datatype LawStatusValue = LawStatusValue(code: Option<string>, title: Attr)

  datatype DocumentValue = DocumentValue(
    documentType: DocumentTypeValue, index: int, lawStatus: LawStatusValue, title: Attr,
    office: OfficeValue, publishedFrom: Date, publishedUntil: Option<Date>,
    textAtWeb: Attr, abbreviation: Attr, officialNumber: Attr, onlyInMunicipality: Option<int>)

  /** `OfficeRecord`; the fields this code never assigns are constants. */
  class OfficeRecord {
    var name: Attr
    var officeAtWeb: Attr
    const uid: Option<string>
    const line1: Option<string>
    const line2: Option<string>
    const street: Option<string>
    const number: Option<string>
    const postalCode: Option<int>
    const city: Option<string>

    constructor (v: OfficeValue)
      ensures Value() == v
    {
      name, officeAtWeb, uid := v.name, v.officeAtWeb, v.uid;
      line1, line2, street, number := v.line1, v.line2, v.street, v.number;
      postalCode, city := v.postalCode, v.city;
    }

    function Value(): OfficeValue
      reads this
    {
      OfficeValue(name, officeAtWeb, uid, line1, line2, street, number, postalCode, city)
    }
  }

  /** `DocumentTypeRecord`. */
  class DocumentTypeRecord {
    var code: Option<string>
    var title: Attr

    constructor (code: Option<string>, title: Attr)
      ensures Value() == DocumentTypeValue(code, title)
    {
      this.code, this.title := code, title;
    }

    function Value(): DocumentTypeValue
      reads this
    {
      DocumentTypeValue(code, title)
    }
  }

  /** `LawStatusRecord`. */
  class LawStatusRecord {
    var code: Option<string>
    const title: Attr
    /** The document whose own copy this record is (`merge_document`); `null` for the one `load` makes. */
    ghost var holder: DocumentRecord?

    constructor (code: Option<string>, title: Attr)
      ensures Value() == LawStatusValue(code, title) && holder == null
    {
      this.code, this.title := code, title;
      holder := null;
    }

    function Value(): LawStatusValue
      reads this
    {
      LawStatusValue(code, title)
    }
  }

  /** `DocumentRecord`, with its document type, law status and responsible office. */
  class DocumentRecord {
    var documentType: DocumentTypeRecord
    const index: int
    var lawStatus: LawStatusRecord
    var title: Attr
    var responsibleOffice: OfficeRecord
    const publishedFrom: Date
    const publishedUntil: Option<Date>
    var textAtWeb: Attr
    var abbreviation: Attr
    var officialNumber: Attr
    const onlyInMunicipality: Option<int>

    constructor (documentType: DocumentTypeRecord, lawStatus: LawStatusRecord, office: OfficeRecord, v: DocumentValue)
      ensures this.documentType == documentType && this.lawStatus == lawStatus && responsibleOffice == office
      ensures index == v.index && title == v.title && publishedFrom == v.publishedFrom
      ensures publishedUntil == v.publishedUntil && textAtWeb == v.textAtWeb && abbreviation == v.abbreviation
      ensures officialNumber == v.officialNumber && onlyInMunicipality == v.onlyInMunicipality
    {
      this.documentType, this.lawStatus, responsibleOffice := documentType, lawStatus, office;
      index, title, publishedFrom, publishedUntil := v.index, v.title, v.publishedFrom, v.publishedUntil;
      textAtWeb, abbreviation, officialNumber := v.textAtWeb, v.abbreviation, v.officialNumber;
      onlyInMunicipality := v.onlyInMunicipality;
    }

    function Value(): DocumentValue
      reads this, documentType, lawStatus, responsibleOffice
    {
      DocumentValue(
        documentType.Value(), index, lawStatus.Value(), title, responsibleOffice.Value(),
        publishedFrom, publishedUntil, textAtWeb, abbreviation, officialNumber, onlyInMunicipality)
    }
  }

  // ---------------------------------------------------------------------------
  // Merging one document with its variant in another language

  /** The office after `merge_office`: name and web address merged, everything else the master's. */
  function MergeOfficeValue(master: OfficeValue, merger: OfficeValue): OfficeValue {
    master.(name := MergeAttribute(master.name, merger.name),
            officeAtWeb := MergeAttribute(master.officeAtWeb, merger.officeAtWeb))
  }

  /** The document after `merge_document`. */
  function MergeDocumentValue(master: DocumentValue, merger: DocumentValue): DocumentValue {
    master.(
      documentType := DocumentTypeValue(
        master.documentType.code, MergeAttribute(master.documentType.title, merger.documentType.title)),
      office := MergeOfficeValue(master.office, merger.office),
      title := MergeAttribute(master.title, merger.title),
      textAtWeb := MergeAttribute(master.textAtWeb, merger.textAtWeb),
      abbreviation := MergeAttribute(master.abbreviation, merger.abbreviation),
      officialNumber := MergeAttribute(master.officialNumber, merger.officialNumber))
  }

  /**
   * What a merge keeps of the master: its index, dates, municipality, law
   * status, document type code and office identity are untouched, and every
   * language of a multilingual field survives.
   */
  lemma MergeDocumentKeepsMaster(master: DocumentValue, merger: DocumentValue)
    ensures var r := MergeDocumentValue(master, merger);
      && r.index == master.index && r.publishedFrom == master.publishedFrom
      && r.publishedUntil == master.publishedUntil && r.onlyInMunicipality == master.onlyInMunicipality
      && r.lawStatus == master.lawStatus && r.documentType.code == master.documentType.code
      && r.office.uid == master.office.uid && r.office.city == master.office.city
      && (master.title.Mapping? && merger.title.Mapping? ==>
            forall k :: k in Keys(master.title.d) + Keys(merger.title.d) ==> k in Keys(r.title.d))
  {
    MergeAttributeCases(master.title, merger.title);
  }

  /** `merge_office`: updates and returns the master. */
  method MergeOffice(master: OfficeRecord, merger: OfficeRecord) returns (r: OfficeRecord)
    modifies master
    ensures r == master
    ensures master.Value() == MergeOfficeValue(old(master.Value()), old(merger.Value()))
  {
    master.name := MergeAttribute(master.name, merger.name);
    master.officeAtWeb := MergeAttribute(master.officeAtWeb, merger.officeAtWeb);
    r := master;
  }

  /** `merge_document_type`: merges the title into the master and returns a new record with it. */
  method MergeDocumentType(master: DocumentTypeRecord, merger: DocumentTypeRecord) returns (r: DocumentTypeRecord)
    modifies master
    ensures master.Value() == DocumentTypeValue(old(master.code), MergeAttribute(old(master.title), old(merger.title)))
    ensures fresh(r) && r.Value() == master.Value()
  {
    master.title := MergeAttribute(master.title, merger.title);
    r := new DocumentTypeRecord(master.code, master.title);
  }

  /**
   * `merge_document`: the master gets a new document type and a new copy of
   * its own law status, its office is merged in place, and its multilingual
   * fields are merged; the master is returned.
   */
  method MergeDocument(master: DocumentRecord, merger: DocumentRecord) returns (r: DocumentRecord)
    modifies master, master.documentType, master.responsibleOffice
    ensures r == master
    ensures master.Value() == MergeDocumentValue(old(master.Value()), old(merger.Value()))
    ensures fresh(master.documentType) && fresh(master.lawStatus) && master.lawStatus.holder == master
    ensures master.responsibleOffice == old(master.responsibleOffice)
    ensures old(master.documentType).Value() == master.documentType.Value()
  {
    master.documentType := MergeDocumentType(master.documentType, merger.documentType);
    var lawStatus := new LawStatusRecord(master.lawStatus.code, master.lawStatus.title);
    lawStatus.holder := master;
    master.lawStatus := lawStatus;
    master.responsibleOffice := MergeOffice(master.responsibleOffice, merger.responsibleOffice);
    master.title := MergeAttribute(master.title, merger.title);
    master.textAtWeb := MergeAttribute(master.textAtWeb, merger.textAtWeb);
    master.abbreviation := MergeAttribute(master.abbreviation, merger.abbreviation);
    master.officialNumber := MergeAttribute(master.officialNumber, merger.officialNumber);
    r := master;
  }

  // ---------------------------------------------------------------------------
  // Office web addresses per language

  /** The office web address after `make_office_at_web_multilingual` for one record. */
  function AtWebMultilingual(a: Attr, language: string): (r: Attr)
    ensures r.Mapping?
    ensures a.Mapping? ==> r == a
    ensures a.Scalar? ==> Keys(r.d) == [language] && Get(r.d, language) == Some(a.v)
  {
    if a.Mapping? then a else Mapping([Entry(language, a.v)])
  }

  lemma AtWebMultilingualIdempotent(a: Attr, language: string, other: string)
    ensures AtWebMultilingual(AtWebMultilingual(a, language), other) == AtWebMultilingual(a, language)
  {
  }

  /**
   * `make_office_at_web_multilingual`: every office whose web address is not
   * a dict gets `{language: address}`. Offices shared by several records are
   * rewritten once, which the contract covers because the rewrite is idempotent.
   */
  method MakeOfficeAtWebMultilingual(documents: seq<DocumentRecord>, language: string)
    modifies set r | r in documents :: r.responsibleOffice
    ensures Values(documents) == WrapAll(old(Values(documents)), language)
  {
    for n := 0 to |documents|
      invariant forall i :: 0 <= i < |documents| ==>
        documents[i].responsibleOffice.name == old(documents[i].responsibleOffice.name)
      invariant forall i :: 0 <= i < n ==>
        documents[i].responsibleOffice.officeAtWeb
          == AtWebMultilingual(old(documents[i].responsibleOffice.officeAtWeb), language)
      invariant forall i :: n <= i < |documents| ==>
        documents[i].responsibleOffice.officeAtWeb in
          {old(documents[i].responsibleOffice.officeAtWeb),
           AtWebMultilingual(old(documents[i].responsibleOffice.officeAtWeb), language)}
    {
      var office := documents[n].responsibleOffice;
      if !office.officeAtWeb.Mapping? {
        office.officeAtWeb := Mapping([Entry(language, office.officeAtWeb.v)]);
      }
    }
    forall i | 0 <= i < |documents|
      ensures documents[i].Value() == WrapOffice(old(documents[i].Value()), language)
    {
      assert documents[i].responsibleOffice == old(documents[i].responsibleOffice);
    }
  }

  // ---------------------------------------------------------------------------
  // Code lookups of the configuration

  /** One `{extract_code, transfer_code}` item of a lookup table. */
  datatype Lookup = Lookup(extractCode: string, transferCode: string)

  /** The lookup tables configured for one theme. */
  datatype ThemeConfig = ThemeConfig(documentTypesLookups: seq<Lookup>, lawStatusLookups: seq<Lookup>)

  /** The transfer code of the first item whose extract code is `extractValue`, or `None`. */
  function TransferCode(lookups: seq<Lookup>, extractValue: Option<string>): Option<string> {
    if lookups == [] then None
    else if Some(lookups[0].extractCode) == extractValue then Some(lookups[0].transferCode)
    else TransferCode(lookups[1..], extractValue)
  }

  /**
   * `TransferCode` is `None` exactly when no item matches, and otherwise the
   * transfer code of the first matching item.
   */
  lemma {:induction false} TransferCodeFirstMatch(lookups: seq<Lookup>, extractValue: Option<string>)
    ensures TransferCode(lookups, extractValue).None? <==>
      forall i :: 0 <= i < |lookups| ==> Some(lookups[i].extractCode) != extractValue
    ensures TransferCode(lookups, extractValue).Some? ==>
      exists i :: (0 <= i < |lookups| && Some(lookups[i].extractCode) == extractValue
        && lookups[i].transferCode == TransferCode(lookups, extractValue).value
        && forall j :: 0 <= j < i ==> Some(lookups[j].extractCode) != extractValue)
  {
    if lookups != [] && Some(lookups[0].extractCode) != extractValue {
      var tail := lookups[1..];
      TransferCodeFirstMatch(tail, extractValue);
      forall i | 0 < i < |lookups| ensures lookups[i] == tail[i - 1] { }
      var r := TransferCode(tail, extractValue);
      if r.Some? {
        var i :| 0 <= i < |tail| && Some(tail[i].extractCode) == extractValue
          && tail[i].transferCode == r.value
          && forall j :: 0 <= j < i ==> Some(tail[j].extractCode) != extractValue;
        assert Some(lookups[i + 1].extractCode) == extractValue;
      }
    } else if lookups != [] {
      assert Some(lookups[0].extractCode) == extractValue;
    }
  }

  /** `get_document_type_code_by_extract_value`. */
  method GetDocumentTypeCodeByExtractValue(theme: ThemeConfig, extractValue: Option<string>)
    returns (code: Option<string>)
    ensures code == TransferCode(theme.documentTypesLookups, extractValue)
  {
    var lookups := theme.documentTypesLookups;
    for i := 0 to |lookups|
      invariant TransferCode(lookups, extractValue) == TransferCode(lookups[i..], extractValue)
    {
      assert lookups[i..][1..] == lookups[i + 1..];
      if Some(lookups[i].extractCode) == extractValue {
        return Some(lookups[i].transferCode);
      }
    }
    assert lookups[|lookups|..] == [];
    return None;
  }

  /** `get_law_status_code_by_extract_value`. */
  method GetLawStatusCodeByExtractValue(theme: ThemeConfig, extractValue: Option<string>)
    returns (code: Option<string>)
    ensures code == TransferCode(theme.lawStatusLookups, extractValue)
  {
    var lookups := theme.lawStatusLookups;
    for i := 0 to |lookups|
      invariant TransferCode(lookups, extractValue) == TransferCode(lookups[i..], extractValue)
    {
      assert lookups[i..][1..] == lookups[i + 1..];
      if Some(lookups[i].extractCode) == extractValue {
        return Some(lookups[i].transferCode);
      }
    }
    assert lookups[|lookups|..] == [];
    return None;
  }

  // ---------------------------------------------------------------------------
  // The custom ÖREBlex source

  /** `OEREBlexSourceCustom._get_document_title`: a decree's title names its file. */
  function DocumentTitle(doctype: string, title: string, fileTitle: string, language: string): (r: Attr)
    ensures r.Mapping? && Keys(r.d) == [language]
    ensures Get(r.d, language).Some? && Get(r.d, language).value.Text?
    ensures var t := Get(r.d, language).value.s;
      && title <= t
      && (t == title <==> doctype != "decree")
      && (doctype == "decree" ==> t[|title|..] == " (" + fileTitle + ")")
  {
    var userTitle := if doctype == "decree" then title + " (" + fileTitle + ")" else title;
    Mapping([Entry(language, Text(userTitle))])
  }

  /** `filter_federal_documents`. */
  const FilterFederalDocuments: seq<string> := ["Bund", "Cancelleria federale", "Confederaziun", "Confederazione"]

  /**
   * `OEREBlexSourceCustom._get_document_records`: no records for a document
   * whose federal level is in the filter list, otherwise the records the
   * parent source builds (given here as `parentRecords`).
   */
  function DocumentRecords<R>(federalLevel: Option<string>, parentRecords: seq<R>): (r: seq<R>)
    ensures r == [] || r == parentRecords
    ensures r == parentRecords <==> !(federalLevel.Some? && federalLevel.value in FilterFederalDocuments) || parentRecords == []
  {
    if federalLevel.Some? && federalLevel.value != "" && federalLevel.value in FilterFederalDocuments then []
    else parentRecords
  }

  // ---------------------------------------------------------------------------
  // Re-mapping the codes of the loaded records

  /** The lookup applied `n` times to a code. */
  function Iterate(lookups: seq<Lookup>, code: Option<string>, n: nat): Option<string> {
    if n == 0 then code else TransferCode(lookups, Iterate(lookups, code, n - 1))
  }

  /** The document types the records refer to, in record order. */
  ghost function DocumentTypes(rs: seq<DocumentRecord>): (ts: seq<DocumentTypeRecord>)
    reads set r | r in rs
    ensures |ts| == |rs| && forall i :: 0 <= i < |rs| ==> ts[i] == rs[i].documentType
  {
    seq(|rs|, i requires 0 <= i < |rs| reads rs => rs[i].documentType)
  }

  /** The law statuses the records refer to, in record order. */
  ghost function LawStatuses(rs: seq<DocumentRecord>): (ls: seq<LawStatusRecord>)
    reads set r | r in rs
    ensures |ls| == |rs| && forall i :: 0 <= i < |rs| ==> ls[i] == rs[i].lawStatus
  {
    seq(|rs|, i requires 0 <= i < |rs| reads rs => rs[i].lawStatus)
  }

  /** A record's codes after its document type was looked up `typeUses` times and its law status `statusUses` times. */
  function Remap(v: DocumentValue, theme: ThemeConfig, typeUses: nat, statusUses: nat): DocumentValue {
    v.(documentType := v.documentType.(code := Iterate(theme.documentTypesLookups, v.documentType.code, typeUses)),
       lawStatus := v.lawStatus.(code := Iterate(theme.lawStatusLookups, v.lawStatus.code, statusUses)))
  }

  function RemapAll(vs: seq<DocumentValue>, theme: ThemeConfig, typeUses: seq<nat>, statusUses: seq<nat>)
    : (r: seq<DocumentValue>)
    requires |typeUses| == |statusUses| == |vs|
    ensures |r| == |vs| && forall i :: 0 <= i < |vs| ==> r[i] == Remap(vs[i], theme, typeUses[i], statusUses[i])
  {
    seq(|vs|, i requires 0 <= i < |vs| => Remap(vs[i], theme, typeUses[i], statusUses[i]))
  }

  /** For each element, how often it occurs in the sequence. */
  function Uses<T(==)>(xs: seq<T>): (us: seq<nat>)
    ensures |us| == |xs| && forall i :: 0 <= i < |xs| ==> us[i] == multiset(xs)[xs[i]]
  {
    seq(|xs|, i requires 0 <= i < |xs| => multiset(xs)[xs[i]])
  }

  /**
   * One pass of the remap loop: both codes of one record are looked up. The
   * ghost sequences are the objects the other records refer to.
   */
  method RemapRecord(records: seq<DocumentRecord>, n: nat, theme: ThemeConfig,
                     ghost types: seq<DocumentTypeRecord>, ghost statuses: seq<LawStatusRecord>)
    requires n < |records|
    modifies records[n].documentType, records[n].lawStatus
    ensures var record := records[n];
      && record.documentType.code == TransferCode(theme.documentTypesLookups, old(record.documentType.code))
      && record.lawStatus.code == TransferCode(theme.lawStatusLookups, old(record.lawStatus.code))
    ensures forall i :: 0 <= i < |types| ==>
      TypeCodes(types)[i]
        == if types[i] == records[n].documentType then records[n].documentType.code else old(TypeCodes(types))[i]
    ensures forall i :: 0 <= i < |statuses| ==>
      StatusCodes(statuses)[i]
        == if statuses[i] == records[n].lawStatus then records[n].lawStatus.code else old(StatusCodes(statuses))[i]
    ensures forall i :: 0 <= i < |types| ==> types[i].title == old(types[i].title)
    ensures unchanged(records)
    ensures forall i :: 0 <= i < |records| ==> unchanged(records[i].responsibleOffice)
  {
    var record := records[n];
    var newCode := GetDocumentTypeCodeByExtractValue(theme, record.documentType.code);
    record.documentType.code := newCode;
    newCode := GetLawStatusCodeByExtractValue(theme, record.lawStatus.code);
    record.lawStatus.code := newCode;
  }

  /**
   * The remap loop at the end of `load`. Each record's codes are replaced by
   * their lookup, in place on the document type and law status objects; an
   * object shared by several records is therefore looked up once per record
   * that refers to it.
   */
  method RemapCodes(records: seq<DocumentRecord>, theme: ThemeConfig)
    modifies set r | r in records :: r.documentType, set r | r in records :: r.lawStatus
    ensures Values(records)
      == RemapAll(old(Values(records)), theme, Uses(DocumentTypes(records)), Uses(LawStatuses(records)))
    ensures unchanged(records)
  {
    ghost var types := DocumentTypes(records);
    ghost var statuses := LawStatuses(records);
    RemapEach(records, theme, types, statuses);
    ghost var remapped := RemapAll(old(Values(records)), theme, Uses(types), Uses(statuses));
    forall i | 0 <= i < |records| ensures records[i].Value() == remapped[i] {
      assert TypeCodes(types)[i] == records[i].documentType.code;
      assert StatusCodes(statuses)[i] == records[i].lawStatus.code;
    }
    ValuesAre(records, remapped);
  }

  /** The loop of `RemapCodes`, on the codes of the objects the records refer to. */
  method RemapEach(records: seq<DocumentRecord>, theme: ThemeConfig,
                   ghost types: seq<DocumentTypeRecord>, ghost statuses: seq<LawStatusRecord>)
    requires types == DocumentTypes(records) && statuses == LawStatuses(records)
    modifies set r | r in records :: r.documentType, set r | r in records :: r.lawStatus
    ensures unchanged(records)
    ensures forall i :: 0 <= i < |records| ==> unchanged(records[i].responsibleOffice)
    ensures forall i :: 0 <= i < |records| ==> types[i].title == old(types[i].title)
    ensures forall i :: 0 <= i < |records| ==>
      TypeCodes(types)[i] == Iterate(theme.documentTypesLookups, old(types[i].code), multiset(types)[types[i]])
    ensures forall i :: 0 <= i < |records| ==>
      StatusCodes(statuses)[i] == Iterate(theme.lawStatusLookups, old(statuses[i].code), multiset(statuses)[statuses[i]])
  {
    ghost var typeCodes := TypeCodes(types);
    ghost var statusCodes := StatusCodes(statuses);
    for n := 0 to |records|
      invariant unchanged(records)
      invariant forall i :: 0 <= i < |records| ==> unchanged(records[i].responsibleOffice)
      invariant forall i :: 0 <= i < |records| ==> types[i].title == old(types[i].title)
      invariant forall i :: 0 <= i < |records| ==>
        TypeCodes(types)[i] == Iterate(theme.documentTypesLookups, typeCodes[i], multiset(types[..n])[types[i]])
      invariant forall i :: 0 <= i < |records| ==>
        StatusCodes(statuses)[i] == Iterate(theme.lawStatusLookups, statusCodes[i], multiset(statuses[..n])[statuses[i]])
    {
      ghost var typesBefore, statusesBefore := TypeCodes(types), StatusCodes(statuses);
      RemapRecord(records, n, theme, types, statuses);
      RemapStep(theme.documentTypesLookups, types, typeCodes, typesBefore, TypeCodes(types), n);
      RemapStep(theme.lawStatusLookups, statuses, statusCodes, statusesBefore, StatusCodes(statuses), n);
    }
    assert types[..|records|] == types;
    assert statuses[..|records|] == statuses;
  }

  /** Records whose values are `vs`, one by one, have the values `vs`. */
  lemma ValuesAre(records: seq<DocumentRecord>, vs: seq<DocumentValue>)
    requires |vs| == |records| && forall i :: 0 <= i < |records| ==> records[i].Value() == vs[i]
    ensures Values(records) == vs
  {
  }

  /** The current codes of the document types. */
  ghost function TypeCodes(types: seq<DocumentTypeRecord>): (cs: seq<Option<string>>)
    reads set t | t in types
    ensures |cs| == |types| && forall i :: 0 <= i < |types| ==> cs[i] == types[i].code
  {
    seq(|types|, i requires 0 <= i < |types| reads types => types[i].code)
  }

  /** The current codes of the law statuses. */
  ghost function StatusCodes(statuses: seq<LawStatusRecord>): (cs: seq<Option<string>>)
    reads set s | s in statuses
    ensures |cs| == |statuses| && forall i :: 0 <= i < |statuses| ==> cs[i] == statuses[i].code
  {
    seq(|statuses|, i requires 0 <= i < |statuses| reads statuses => statuses[i].code)
  }

  /** One pass of the remap loop, on the codes of the objects the records refer to. */
  lemma RemapStep<T>(lookups: seq<Lookup>, objs: seq<T>, start: seq<Option<string>>, before: seq<Option<string>>,
                     after: seq<Option<string>>, n: nat)
    requires |objs| == |start| == |before| == |after| && n < |objs|
    requires forall i, j :: 0 <= i < |objs| && 0 <= j < |objs| && objs[i] == objs[j] ==> start[i] == start[j]
    requires forall i :: 0 <= i < |objs| ==> before[i] == Iterate(lookups, start[i], multiset(objs[..n])[objs[i]])
    requires forall i :: 0 <= i < |objs| ==>
      after[i] == if objs[i] == objs[n] then TransferCode(lookups, before[n]) else before[i]
    ensures forall i :: 0 <= i < |objs| ==> after[i] == Iterate(lookups, start[i], multiset(objs[..n + 1])[objs[i]])
  {
    assert objs[..n + 1] == objs[..n] + [objs[n]];
  }

  /** With lookups whose transfer codes map to themselves, repeating the lookup changes nothing. */
  lemma {:induction false} IterateStable(lookups: seq<Lookup>, code: Option<string>, n: nat)
    requires forall i :: 0 <= i < |lookups| ==>
      TransferCode(lookups, Some(lookups[i].transferCode)) == Some(lookups[i].transferCode)
    requires n >= 1
    ensures Iterate(lookups, code, n) == TransferCode(lookups, code)
  {
    if n > 1 {
      IterateStable(lookups, code, n - 1);
      var t := TransferCode(lookups, code);
      TransferCodeFirstMatch(lookups, code);
      if t.Some? {
        var i :| 0 <= i < |lookups| && Some(lookups[i].extractCode) == code && lookups[i].transferCode == t.value
          && forall j :: 0 <= j < i ==> Some(lookups[j].extractCode) != code;
        assert t == Some(lookups[i].transferCode);
      } else {
        TransferCodeFirstMatch(lookups, None);
      }
    }
  }

  /** A law status shared by two records is looked up twice: `A -> B` then yields `None`, not `B`. */
  lemma SharedCodeLookedUpTwice()
    ensures Iterate([Lookup("A", "B")], Some("A"), 1) == Some("B")
    ensures Iterate([Lookup("A", "B")], Some("A"), 2) == None
  {
    assert TransferCode([Lookup("A", "B")], Some("B")) == None;
  }

  /** An element of a sequence without repetitions occurs in it once. */
  lemma {:induction false} OccursOnce<T>(xs: seq<T>, i: nat)
    requires forall a, b :: 0 <= a < b < |xs| ==> xs[a] != xs[b]
    requires i < |xs|
    ensures multiset(xs)[xs[i]] == 1
  {
    var last := |xs| - 1;
    assert xs == xs[..last] + [xs[last]];
    if i < last {
      OccursOnce(xs[..last], i);
      assert xs[..last][i] == xs[i];
    } else {
      assert xs[i] !in xs[..last];
    }
  }

  /** Records whose document types are all different each refer to their own document type once. */
  lemma DocTypeUsedOnce(rs: seq<DocumentRecord>, i: nat)
    requires Separate(rs)
    requires i < |rs|
    ensures multiset(DocumentTypes(rs))[rs[i].documentType] == 1
  {
    OccursOnce(DocumentTypes(rs), i);
  }

  // ---------------------------------------------------------------------------
  // Merging the reads of all languages

  /**
   * Neither a record nor its document type nor its office is shared with
   * another record of the list (law status records may be shared).
   */
  ghost predicate Separate(rs: seq<DocumentRecord>)
    reads set r | r in rs
  {
    forall i, j :: 0 <= i < j < |rs| ==>
      rs[i] != rs[j] && rs[i].documentType != rs[j].documentType && rs[i].responsibleOffice != rs[j].responsibleOffice
  }

  /** No record, document type or office of `a` occurs in `b`. */
  ghost predicate Disjoint(a: seq<DocumentRecord>, b: seq<DocumentRecord>)
    reads set r | r in a, set r | r in b
  {
    forall i, j :: 0 <= i < |a| && 0 <= j < |b| ==>
      a[i] != b[j] && a[i].documentType != b[j].documentType && a[i].responsibleOffice != b[j].responsibleOffice
  }

  /** The office web address of a document after `make_office_at_web_multilingual`. */
  function WrapOffice(v: DocumentValue, language: string): DocumentValue {
    v.(office := v.office.(officeAtWeb := AtWebMultilingual(v.office.officeAtWeb, language)))
  }

  function WrapAll(vs: seq<DocumentValue>, language: string): (r: seq<DocumentValue>)
    ensures |r| == |vs| && forall i :: 0 <= i < |vs| ==> r[i] == WrapOffice(vs[i], language)
  {
    seq(|vs|, i requires 0 <= i < |vs| => WrapOffice(vs[i], language))
  }

  /**
   * The master read after merging in one other read, position by position,
   * as far as both reach.
   */
  function MergeByPosition(master: seq<DocumentValue>, mergers: seq<DocumentValue>): (r: seq<DocumentValue>)
    ensures |r| == |master|
    ensures forall i :: 0 <= i < |master| ==>
      r[i] == if i < |mergers| then MergeDocumentValue(master[i], mergers[i]) else master[i]
  {
    seq(|master|, i requires 0 <= i < |master| =>
      if i < |mergers| then MergeDocumentValue(master[i], mergers[i]) else master[i])
  }

  /** The current values of the records. */
  ghost function Values(rs: seq<DocumentRecord>): (vs: seq<DocumentValue>)
    reads set r | r in rs, set r | r in rs :: r.documentType, set r | r in rs :: r.lawStatus
    reads set r | r in rs :: r.responsibleOffice
    ensures |vs| == |rs| && forall i :: 0 <= i < |rs| ==> vs[i] == rs[i].Value()
  {
    seq(|rs|, i requires 0 <= i < |rs|
      reads set r | r in rs, set r | r in rs :: r.documentType, set r | r in rs :: r.lawStatus,
        set r | r in rs :: r.responsibleOffice
      => rs[i].Value())
  }

  /**
   * The languages from `k` on, merged into `acc` in turn; a read longer than
   * the master read stops the loop with an `IndexError`.
   */
  function MergeFrom(acc: seq<DocumentValue>, languages: seq<string>, fetched: seq<seq<DocumentValue>>, k: nat)
    : Result<seq<DocumentValue>>
    requires |fetched| == |languages| >= 1 && k <= |languages|
    decreases |languages| - k
  {
    if k == |languages| then Ok(acc)
    else if languages[k] == languages[0] then MergeFrom(acc, languages, fetched, k + 1)
    else if |fetched[k]| > |acc| then Err(IndexError)
    else MergeFrom(MergeByPosition(acc, WrapAll(fetched[k], languages[k])), languages, fetched, k + 1)
  }

  /** Every read of the merge loop, merged into the master read. */
  function MergedReads(languages: seq<string>, fetched: seq<seq<DocumentValue>>): Result<seq<DocumentValue>>
    requires |fetched| == |languages|
  {
    if |languages| == 0 then Err(IndexError)
    else MergeFrom(WrapAll(fetched[0], languages[0]), languages, fetched, 1)
  }

  /** The merge fails exactly when there is no language or a read of another language is too long. */
  lemma {:induction false} MergeFromFails(acc: seq<DocumentValue>, languages: seq<string>, fetched: seq<seq<DocumentValue>>, k: nat)
    requires |fetched| == |languages| >= 1 && 1 <= k <= |languages|
    ensures MergeFrom(acc, languages, fetched, k).Err? <==>
        exists j :: k <= j < |languages| && languages[j] != languages[0] && |fetched[j]| > |acc|
    ensures MergeFrom(acc, languages, fetched, k).Ok? ==> |MergeFrom(acc, languages, fetched, k).value| == |acc|
    decreases |languages| - k
  {
    if k < |languages| {
      if languages[k] == languages[0] {
        MergeFromFails(acc, languages, fetched, k + 1);
        assert forall j :: k <= j < |languages| && languages[j] != languages[0] ==> k + 1 <= j;
      } else if |fetched[k]| <= |acc| {
        var acc' := MergeByPosition(acc, WrapAll(fetched[k], languages[k]));
        MergeFromFails(acc', languages, fetched, k + 1);
        assert forall j :: k <= j < |languages| && languages[j] != languages[0] && |fetched[j]| > |acc| ==> k + 1 <= j;
      }
    }
  }

  /** Merging the reads of `load` fails exactly when there is no language or a read is longer than the master read. */
  lemma MergedReadsFail(languages: seq<string>, documents: seq<seq<DocumentValue>>)
    requires |documents| == |languages|
    ensures MergedReads(languages, Fetched(documents)).Err? <==> (|languages| == 0 ||
      exists k :: 1 <= k < |languages| && languages[k] != languages[0] && |documents[k]| > |documents[0]|)
    ensures MergedReads(languages, Fetched(documents)).Ok? ==>
      |MergedReads(languages, Fetched(documents)).value| == |documents[0]|
  {
    if |languages| > 0 {
      var fetched := Fetched(documents);
      MergeFromFails(WrapAll(fetched[0], languages[0]), languages, fetched, 1);
    }
  }

  /** One pass of the merge loop: the record at `index` is merged with its counterpart. */
  method MergeAt(result: seq<DocumentRecord>, mergers: seq<DocumentRecord>, index: nat)
    requires Separate(result) && Disjoint(result, mergers)
    requires index < |result| && index < |mergers|
    modifies result[index], result[index].documentType, result[index].responsibleOffice
    ensures Values(result)
      == old(Values(result))[index := MergeDocumentValue(old(Values(result))[index], old(Values(mergers))[index])]
    ensures Values(mergers) == old(Values(mergers))
    ensures Separate(result) && Disjoint(result, mergers)
    ensures forall i :: 0 <= i < |result| && i != index ==> unchanged(result[i])
    ensures fresh(result[index].documentType) && fresh(result[index].lawStatus)
    ensures result[index].lawStatus.holder == result[index]
    ensures result[index].responsibleOffice == old(result[index].responsibleOffice)
  {
    var _ := MergeDocument(result[index], mergers[index]);
  }

  /**
   * The law statuses of the records while `load` runs: the first `m` records
   * hold one of their own each, and all the others share `lst`.
   */
  ghost predicate SharedStatus(rs: seq<DocumentRecord>, lst: LawStatusRecord, m: nat)
    reads set r | r in rs
  {
    && m <= |rs|
    && (forall i :: m <= i < |rs| ==> rs[i].lawStatus == lst)
    && (forall i :: 0 <= i < m ==> rs[i].lawStatus != lst)
    && (forall i, j :: 0 <= i < j < m ==> rs[i].lawStatus != rs[j].lawStatus)
  }

  /**
   * `SharedStatus` as the merges leave it: each of the first `m` records holds
   * a copy of the law status made for it, and `lst` was made for none.
   */
  ghost predicate Held(rs: seq<DocumentRecord>, lst: LawStatusRecord, m: nat)
    reads set r | r in rs, set r | r in rs :: r.lawStatus, lst
  {
    && m <= |rs| && lst.holder == null
    && (forall i :: m <= i < |rs| ==> rs[i].lawStatus == lst)
    && (forall i :: 0 <= i < m ==> rs[i].lawStatus.holder == rs[i])
  }

  lemma HeldShared(rs: seq<DocumentRecord>, lst: LawStatusRecord, m: nat)
    requires Separate(rs) && Held(rs, lst, m)
    ensures SharedStatus(rs, lst, m)
  {
    forall i, j | 0 <= i < j < m ensures rs[i].lawStatus != rs[j].lawStatus {
      assert rs[i].lawStatus.holder == rs[i] != rs[j] == rs[j].lawStatus.holder;
    }
  }

  /**
   * The merge loop of `load` for one other language: each record of
   * `mergers` is merged into the master record at its position; a merger list
   * longer than the master list merges what it can and then fails with an
   * `IndexError`.
   */
  method MergeRead(result: seq<DocumentRecord>, mergers: seq<DocumentRecord>, ghost lst: LawStatusRecord, ghost m: nat)
    returns (ok: bool)
    requires Separate(result) && Disjoint(result, mergers) && Held(result, lst, m)
    modifies set r | r in result, set r | r in result :: r.documentType, set r | r in result :: r.responsibleOffice
    ensures ok <==> |mergers| <= |result|
    ensures Values(result) == MergeByPosition(old(Values(result)), old(Values(mergers)))
    ensures Separate(result)
    ensures forall i :: 0 <= i < |result| ==> result[i].responsibleOffice == old(result[i].responsibleOffice)
    ensures forall i :: 0 <= i < |result| ==>
      (result[i].documentType == old(result[i].documentType) || fresh(result[i].documentType)) &&
      (result[i].lawStatus == old(result[i].lawStatus) || fresh(result[i].lawStatus))
    ensures ok ==> Held(result, lst, if |mergers| > m then |mergers| else m)
  {
    var n := if |mergers| <= |result| then |mergers| else |result|;
    ghost var master, others := Values(result), Values(mergers);
    for index := 0 to n
      invariant Separate(result) && Disjoint(result, mergers)
      invariant Values(result) == MergeByPosition(master, others[..index])
      invariant Values(mergers) == others
      invariant forall i :: 0 <= i < |result| ==> result[i].responsibleOffice == old(result[i].responsibleOffice)
      invariant forall i :: 0 <= i < index ==>
        fresh(result[i].documentType) && fresh(result[i].lawStatus) && result[i].lawStatus.holder == result[i]
      invariant forall i :: index <= i < |result| ==>
        result[i].documentType == old(result[i].documentType) && result[i].lawStatus == old(result[i].lawStatus)
    {
      MergeAt(result, mergers, index);
      MergeByPositionStep(master, others, index);
    }
    MergeByPositionAll(master, others, n);
    ok := |mergers| <= |result|;
  }

  lemma MergeByPositionStep(master: seq<DocumentValue>, others: seq<DocumentValue>, index: nat)
    requires index < |master| && index < |others|
    ensures var before := MergeByPosition(master, others[..index]);
      before[index := MergeDocumentValue(before[index], others[index])] == MergeByPosition(master, others[..index + 1])
  {
  }

  lemma MergeByPositionAll(master: seq<DocumentValue>, others: seq<DocumentValue>, n: nat)
    requires n == if |others| <= |master| then |others| else |master|
    ensures MergeByPosition(master, others[..n]) == MergeByPosition(master, others)
  {
  }

  // ---------------------------------------------------------------------------
  // `load`

  /** The title of the law status record `load` creates (`lst`). */
  const InForceTitle: Attr := Mapping([
    Entry("de", Text("in Kraft")), Entry("fr", Text("En vigueur")), Entry("it", Text("In vigore")),
    Entry("rm", Text("En vigur")), Entry("en", Text("In force"))])

  /** The one law status all documents of a run are read with. */
  const InForce: LawStatusValue := LawStatusValue(Some("inKraft"), InForceTitle)

  /** The documents of one read, each given the law status passed to the read. */
  function WithLawStatus(vs: seq<DocumentValue>, status: LawStatusValue): (r: seq<DocumentValue>)
    ensures |r| == |vs| && forall i :: 0 <= i < |vs| ==> r[i] == vs[i].(lawStatus := status)
  {
    seq(|vs|, i requires 0 <= i < |vs| => vs[i].(lawStatus := status))
  }

  /** What each language's read yields, all with the law status `InForce`. */
  function Fetched(documents: seq<seq<DocumentValue>>): (r: seq<seq<DocumentValue>>)
    ensures |r| == |documents| && forall k :: 0 <= k < |documents| ==> r[k] == WithLawStatus(documents[k], InForce)
  {
    seq(|documents|, k requires 0 <= k < |documents| => WithLawStatus(documents[k], InForce))
  }

  /**
   * `source.read(p, geolink_id, lst)`: the source builds a new record, with a
   * new document type and a new office, for every document ÖREBlex delivers in
   * the language of `p`; every record gets the law status `lst`.
   */
  method Read(documents: seq<DocumentValue>, lawStatus: LawStatusRecord) returns (rs: seq<DocumentRecord>)
    ensures Values(rs) == WithLawStatus(documents, lawStatus.Value())
    ensures Separate(rs)
    ensures forall i :: 0 <= i < |rs| ==>
      fresh(rs[i]) && fresh(rs[i].documentType) && fresh(rs[i].responsibleOffice) && rs[i].lawStatus == lawStatus
  {
    rs := [];
    for n := 0 to |documents|
      invariant |rs| == n && Separate(rs)
      invariant forall i :: 0 <= i < n ==>
        fresh(rs[i]) && fresh(rs[i].documentType) && fresh(rs[i].responsibleOffice) && rs[i].lawStatus == lawStatus
      invariant forall i :: 0 <= i < n ==> rs[i].Value() == documents[i].(lawStatus := lawStatus.Value())
    {
      var r := NewRecord(documents[n], lawStatus);
      rs := rs + [r];
    }
  }

  /** One record of a read, with a new document type and a new office. */
  method NewRecord(v: DocumentValue, lawStatus: LawStatusRecord) returns (r: DocumentRecord)
    ensures fresh(r) && fresh(r.documentType) && fresh(r.responsibleOffice) && r.lawStatus == lawStatus
    ensures r.Value() == v.(lawStatus := lawStatus.Value())
  {
    var documentType := new DocumentTypeRecord(v.documentType.code, v.documentType.title);
    var office := new OfficeRecord(v.office);
    r := new DocumentRecord(documentType, lawStatus, office, v);
  }

  /**
   * The read of one language followed by `make_office_at_web_multilingual`:
   * new records whose offices carry their web address under that language.
   */
  method ReadLanguage(documents: seq<DocumentValue>, lawStatus: LawStatusRecord, language: string)
    returns (rs: seq<DocumentRecord>)
    ensures Values(rs) == WrapAll(WithLawStatus(documents, lawStatus.Value()), language)
    ensures Separate(rs)
    ensures forall i :: 0 <= i < |rs| ==>
      fresh(rs[i]) && fresh(rs[i].documentType) && fresh(rs[i].responsibleOffice) && rs[i].lawStatus == lawStatus
  {
    rs := Read(documents, lawStatus);
    label read:
    MakeOfficeAtWebMultilingual(rs, language);
    assert unchanged@read(rs) && unchanged@read(lawStatus);
  }

  /**
   * One pass of the language loop for a language other than the master: the
   * documents are read in that language, their offices are made multilingual
   * and they are merged into the master records.
   */
  method MergeLanguage(result: seq<DocumentRecord>, documents: seq<DocumentValue>, lawStatus: LawStatusRecord,
                       language: string, ghost m: nat)
    returns (ok: bool)
    requires Separate(result) && Held(result, lawStatus, m)
    modifies set r | r in result, set r | r in result :: r.documentType, set r | r in result :: r.responsibleOffice
    ensures ok <==> |documents| <= |result|
    ensures Values(result)
      == MergeByPosition(old(Values(result)), WrapAll(WithLawStatus(documents, old(lawStatus.Value())), language))
    ensures Separate(result) && unchanged(lawStatus)
    ensures forall i :: 0 <= i < |result| ==> result[i].responsibleOffice == old(result[i].responsibleOffice)
    ensures forall i :: 0 <= i < |result| ==>
      (result[i].documentType == old(result[i].documentType) || fresh(result[i].documentType)) &&
      (result[i].lawStatus == old(result[i].lawStatus) || fresh(result[i].lawStatus))
    ensures ok ==> Held(result, lawStatus, if |documents| > m then |documents| else m)
  {
    var mergers := ReadLanguage(documents, lawStatus, language);
    ok := MergeRead(result, mergers, lawStatus, m);
  }

  /**
   * How many leading master records the reads of the languages before `k`
   * (other than the master language) are merged into.
   */
  function MergedLength(languages: seq<string>, documents: seq<seq<DocumentValue>>, k: nat): nat
    requires k <= |languages| == |documents|
  {
    if k <= 1 then 0
    else
      var m := MergedLength(languages, documents, k - 1);
      if languages[k - 1] != languages[0] && |documents[k - 1]| > m then |documents[k - 1]| else m
  }

  /**
   * In a list whose first `m` elements are all different and whose others are
   * all `x`, the first `m` occur once each and `x` occurs `|xs| - m` times.
   */
  lemma {:induction false} SharedUses<T>(xs: seq<T>, x: T, m: nat)
    requires m <= |xs|
    requires forall i :: m <= i < |xs| ==> xs[i] == x
    requires forall i :: 0 <= i < m ==> xs[i] != x
    requires forall i, j :: 0 <= i < j < m ==> xs[i] != xs[j]
    ensures forall i :: 0 <= i < |xs| ==> multiset(xs)[xs[i]] == if i < m then 1 else |xs| - m
  {
    if |xs| == m {
      forall i | 0 <= i < |xs| ensures multiset(xs)[xs[i]] == 1 {
        OccursOnce(xs, i);
      }
    } else {
      var last := |xs| - 1;
      var prefix := xs[..last];
      assert xs == prefix + [x];
      SharedUses(prefix, x, m);
      if last == m {
        assert x !in prefix;
      } else {
        assert prefix[m] == x;
      }
      forall i | 0 <= i < |xs| ensures multiset(xs)[xs[i]] == if i < m then 1 else |xs| - m {
        if i < m {
          assert prefix[i] == xs[i];
        }
      }
    }
  }

  /**
   * The reads of `load`: the law status `lst` is made, the master language is
   * read, and the read of every other language is merged into the master
   * records, until a read is longer than the master read.
   */
  method ReadAndMerge(languages: seq<string>, documents: seq<seq<DocumentValue>>)
    returns (records: seq<DocumentRecord>, ghost lst: LawStatusRecord, ok: bool)
    requires |documents| == |languages| >= 1
    ensures ok <==> MergedReads(languages, Fetched(documents)).Ok?
    ensures ok ==> Values(records) == MergedReads(languages, Fetched(documents)).value
    ensures ok ==> SharedStatus(records, lst, MergedLength(languages, documents, |languages|))
    ensures Separate(records)
    ensures forall i :: 0 <= i < |records| ==>
      fresh(records[i]) && fresh(records[i].documentType) && fresh(records[i].lawStatus)
  {
    var status := new LawStatusRecord(InForce.code, InForce.title);
    lst := status;
    var master := languages[0];
    records := ReadLanguage(documents[0], status, master);
    var k := 1;
    while k < |languages|
      invariant Reading(records, lst, languages, documents, k)
      invariant forall i :: 0 <= i < |records| ==>
        fresh(records[i]) && fresh(records[i].documentType) && fresh(records[i].responsibleOffice)
          && fresh(records[i].lawStatus)
      invariant fresh(lst)
    {
      ok := MergeStep(records, status, master, languages, documents, k);
      if !ok {
        return;
      }
      k := k + 1;
    }
    HeldShared(records, lst, MergedLength(languages, documents, |languages|));
    ok := true;
  }

  /**
   * The state of the language loop of `load` before the language at `k`:
   * what is still to be merged yields the merged reads, and the records share
   * `lst` from the position the earlier merges reached on.
   */
  ghost predicate Reading(records: seq<DocumentRecord>, lst: LawStatusRecord, languages: seq<string>,
                          documents: seq<seq<DocumentValue>>, k: nat)
    reads set r | r in records, set r | r in records :: r.documentType, set r | r in records :: r.lawStatus
    reads set r | r in records :: r.responsibleOffice, lst
  {
    && 1 <= k <= |languages| == |documents|
    && |records| == |documents[0]| && Separate(records)
    && lst.Value() == InForce
    && MergeFrom(Values(records), languages, Fetched(documents), k) == MergedReads(languages, Fetched(documents))
    && Held(records, lst, MergedLength(languages, documents, k))
  }

  /** One pass of the language loop of `load`; `ok` is false when the read was too long. */
  method MergeStep(records: seq<DocumentRecord>, status: LawStatusRecord, master: string, languages: seq<string>,
                   documents: seq<seq<DocumentValue>>, k: nat)
    returns (ok: bool)
    requires Reading(records, status, languages, documents, k) && k < |languages| && master == languages[0]
    modifies set r | r in records, set r | r in records :: r.documentType, set r | r in records :: r.responsibleOffice
    ensures ok ==> Reading(records, status, languages, documents, k + 1)
    ensures !ok ==> MergedReads(languages, Fetched(documents)).Err?
    ensures Separate(records) && unchanged(status)
    ensures forall i :: 0 <= i < |records| ==> records[i].responsibleOffice == old(records[i].responsibleOffice)
    ensures forall i :: 0 <= i < |records| ==>
      (records[i].documentType == old(records[i].documentType) || fresh(records[i].documentType)) &&
      (records[i].lawStatus == old(records[i].lawStatus) || fresh(records[i].lawStatus))
  {
    ghost var m := MergedLength(languages, documents, k);
    ok := true;
    if languages[k] != master {
      ok := MergeLanguage(records, documents[k], status, languages[k], m);
      if ok {
        assert MergedLength(languages, documents, k + 1) == if |documents[k]| > m then |documents[k]| else m;
      }
    } else {
      assert MergedLength(languages, documents, k + 1) == m;
    }
  }

  /**
   * The records `load` returns for the merged reads `merged`: no document
   * type or office is shared, each document type was looked up once, the law
   * status of each of the first `m` records once, and the law status the
   * other records share once per record.
   */
  ghost predicate Loaded(rs: seq<DocumentRecord>, merged: seq<DocumentValue>, theme: ThemeConfig, m: nat)
    reads set r | r in rs, set r | r in rs :: r.documentType, set r | r in rs :: r.lawStatus
    reads set r | r in rs :: r.responsibleOffice
  {
    && |merged| == |rs| && m <= |rs| && Separate(rs)
    && (forall i :: 0 <= i < |rs| ==> Uses(DocumentTypes(rs))[i] == 1)
    && (forall i :: 0 <= i < |rs| ==> Uses(LawStatuses(rs))[i] == if i < m then 1 else |rs| - m)
    && (forall i :: 0 <= i < |rs| ==> Values(rs)[i] == Remap(merged[i], theme, 1, if i < m then 1 else |rs| - m))
  }

  /**
   * With a law status table whose transfer codes map to themselves, the
   * repeated lookup of the shared law status does no harm: every code of the
   * loaded records is looked up exactly once.
   */
  lemma LoadedOnce(rs: seq<DocumentRecord>, merged: seq<DocumentValue>, theme: ThemeConfig, m: nat)
    requires Loaded(rs, merged, theme, m)
    requires forall i :: 0 <= i < |theme.lawStatusLookups| ==>
      TransferCode(theme.lawStatusLookups, Some(theme.lawStatusLookups[i].transferCode))
        == Some(theme.lawStatusLookups[i].transferCode)
    ensures forall i :: 0 <= i < |rs| ==> Values(rs)[i] == Remap(merged[i], theme, 1, 1)
  {
    forall i | m <= i < |rs| ensures Values(rs)[i] == Remap(merged[i], theme, 1, 1) {
      var code := merged[i].lawStatus.code;
      IterateStable(theme.lawStatusLookups, code, |rs| - m);
      assert Iterate(theme.lawStatusLookups, code, 1) == TransferCode(theme.lawStatusLookups, code);
    }
  }

  /**
   * The remap loop on the records `load` has merged: each document type is
   * looked up once, a law status of a merged record once, and the shared
   * `lst` once per record that still refers to it.
   */
  method RemapLoaded(records: seq<DocumentRecord>, theme: ThemeConfig, ghost lst: LawStatusRecord, ghost m: nat,
                     ghost merged: seq<DocumentValue>)
    requires Separate(records) && SharedStatus(records, lst, m) && Values(records) == merged
    modifies set r | r in records :: r.documentType, set r | r in records :: r.lawStatus
    ensures Loaded(records, merged, theme, m) && unchanged(records)
  {
    ghost var types, statuses := DocumentTypes(records), LawStatuses(records);
    forall i | 0 <= i < |records| ensures Uses(types)[i] == 1 {
      DocTypeUsedOnce(records, i);
    }
    SharedUses(statuses, lst, m);
    RemapCodes(records, theme);
    assert DocumentTypes(records) == types && LawStatuses(records) == statuses;
  }

  /**
   * `load` with the configuration, the source and the reads abstracted: the
   * master language is read and made multilingual, the read of every other
   * language is merged into it position by position, and then every document
   * type and law status code is translated for the theme. An empty language
   * list, or a read that is longer than the master read, raises `IndexError`.
   */
  method Load(languages: seq<string>, documents: seq<seq<DocumentValue>>, theme: ThemeConfig)
    returns (result: Result<seq<DocumentRecord>>)
    requires |documents| == |languages|
    ensures result.Err? <==> (|languages| == 0 ||
      exists k :: 1 <= k < |languages| && languages[k] != languages[0] && |documents[k]| > |documents[0]|)
    ensures result.Err? ==> result.error == IndexError
    ensures result.Ok? ==> MergedReads(languages, Fetched(documents)).Ok?
    ensures result.Ok? ==>
      Loaded(result.value, MergedReads(languages, Fetched(documents)).value, theme,
             MergedLength(languages, documents, |languages|))
    ensures result.Ok? ==> forall i :: 0 <= i < |result.value| ==>
      fresh(result.value[i]) && fresh(result.value[i].documentType) && fresh(result.value[i].lawStatus)
  {
    if |languages| == 0 {
      return Err(IndexError);
    }
    var records, ok;
    ghost var lst;
    records, lst, ok := ReadAndMerge(languages, documents);
    MergedReadsFail(languages, documents);
    if !ok {
      return Err(IndexError);
    }
    RemapLoaded(records, theme, lst, MergedLength(languages, documents, |languages|),
                MergedReads(languages, Fetched(documents)).value);
    result := Ok(records);
  }
}
