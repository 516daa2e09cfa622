/**
 * The entities of the OeREBKRMtrsfr_V2_0 transfer model that the translation
 * builds: localised texts and URIs, the office (`Amt`) and the document
 * (`Dokument`).
 *
 * The generated classes are not part of this model; only the attributes the
 * translation fills are kept. The document's `ZustaendigeStelle` is a fresh
 * wrapper around a single `REF`, so it is kept as the document's `ref` field.
 * What `str()` of an office or a document yields is not known here: it is a
 * function of the entity's content, passed in as `Stringify`.
 */
module Exchange {
  import opened Wrappers
  import opened LangDict
  import PyramidOereb

  /** `LocalisationCH_V1_LocalisedText(language, text)`. */
  datatype LocalisedText = LocalisedText(language: string, text: Value)

  /** `OeREBKRM_V2_0_LocalisedUri(language, uri)`. */
  datatype LocalisedUri = LocalisedUri(language: string, uri: string)

  /** A multilingual text attribute: `None`, or the list of localised texts. */
  type MultilingualText = Option<seq<LocalisedText>>

  /** A multilingual URI attribute: `None`, or the list of localised URIs. */
  type MultilingualUri = Option<seq<LocalisedUri>>

  datatype AmtValue = AmtValue(
    name: MultilingualText, amtImWeb: MultilingualUri, uid: Option<string>,
    zeile1: Option<string>, zeile2: Option<string>, strasse: Option<string>, hausnr: Option<string>,
    plz: Option<int>, ort: Option<string>, tid: Option<string>)

  datatype DokumentValue = DokumentValue(
    typ: Option<string>, titel: MultilingualText, abkuerzung: MultilingualText,
    offizielleNr: MultilingualText, nurInGemeinde: Option<int>, textImWeb: MultilingualUri,
    auszugIndex: int, rechtsstatus: Option<string>,
    publiziertAb: PyramidOereb.Date, publiziertBis: Option<PyramidOereb.Date>,
    ref: string, tid: Option<string>)

  /** `str()` of an office and of a document: some text determined by the entity's content. */
  datatype Stringify = Stringify(amt: AmtValue -> string, dokument: DokumentValue -> string)

  /** `OeREBKRM_V2_0_Amt_Amt`; only its `TID` is ever assigned after construction. */
  class Amt {
    const name: MultilingualText
    const amtImWeb: MultilingualUri
    const uid: Option<string>
    const zeile1: Option<string>
    const zeile2: Option<string>
    const strasse: Option<string>
    const hausnr: Option<string>
    const plz: Option<int>
    const ort: Option<string>
    var tid: Option<string>

    constructor (v: AmtValue)
      ensures Value() == v
    {
      name, amtImWeb, uid := v.name, v.amtImWeb, v.uid;
      zeile1, zeile2, strasse, hausnr := v.zeile1, v.zeile2, v.strasse, v.hausnr;
      plz, ort, tid := v.plz, v.ort, v.tid;
    }

    function Value(): AmtValue
      reads this
    {
      AmtValue(name, amtImWeb, uid, zeile1, zeile2, strasse, hausnr, plz, ort, tid)
    }
  }

  /** `OeREBKRM_V2_0_Dokumente_Dokument`; its `TID` and `ZustaendigeStelle.REF` are assigned later. */
  class Dokument {
    const typ: Option<string>
    const titel: MultilingualText
    const abkuerzung: MultilingualText
    const offizielleNr: MultilingualText
    const nurInGemeinde: Option<int>
    const textImWeb: MultilingualUri
    const auszugIndex: int
    const rechtsstatus: Option<string>
    const publiziertAb: PyramidOereb.Date
    const publiziertBis: Option<PyramidOereb.Date>
    var ref: string
    var tid: Option<string>

    constructor (v: DokumentValue)
      ensures Value() == v
    {
      typ, titel, abkuerzung, offizielleNr := v.typ, v.titel, v.abkuerzung, v.offizielleNr;
      nurInGemeinde, textImWeb, auszugIndex, rechtsstatus := v.nurInGemeinde, v.textImWeb, v.auszugIndex, v.rechtsstatus;
      publiziertAb, publiziertBis, ref, tid := v.publiziertAb, v.publiziertBis, v.ref, v.tid;
    }

    function Value(): DokumentValue
      reads this
    {
      DokumentValue(
        typ, titel, abkuerzung, offizielleNr, nurInGemeinde, textImWeb,
        auszugIndex, rechtsstatus, publiziertAb, publiziertBis, ref, tid)
    }
  }

  /** The translated (document, office) pairs, as values. */
  ghost function PairValues(ps: seq<(Dokument, Amt)>): (r: seq<(DokumentValue, AmtValue)>)
    reads set p | p in ps :: p.0, set p | p in ps :: p.1
    ensures |r| == |ps| && forall i :: 0 <= i < |ps| ==> r[i] == (ps[i].0.Value(), ps[i].1.Value())
  {
    seq(|ps|, i requires 0 <= i < |ps| reads set p | p in ps :: p.0, set p | p in ps :: p.1
      => (ps[i].0.Value(), ps[i].1.Value()))
  }

  /** The values of two lists of pairs, one after the other. */
  lemma PairValuesAppend(a: seq<(Dokument, Amt)>, b: seq<(Dokument, Amt)>)
    ensures PairValues(a + b) == PairValues(a) + PairValues(b)
  {
  }
}
