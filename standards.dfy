/** The regulatory catalog (`src/data/standards.ts`): a constant list of three
    standards with their ordered sections, exact lookups by id, and the
    case-insensitive substring search used by the knowledge browser. */
module Standards {
  import opened Seqs
  import opened Text
  import opened Types

  // The full text of each section, kept apart from the catalog's structure.
  const Cfr820_1Text: string :=
    "This part contains the quality system regulation for medical devices. The regulation in this part supplements regulations in other parts of this chapter except where explicitly stated otherwise."
  const Cfr820_3Text: string :=
    "As used in this part: (a) Act means the Federal Food, Drug, and Cosmetic Act. (b) Complaint means any written, electronic, or oral communication that alleges deficiencies related to the identity, quality, durability, reliability, safety, effectiveness, or performance of a device after it is released for distribution."
  const Cfr820_20Text: string :=
    "Each manufacturer shall establish and maintain an adequate quality system. The quality system shall be appropriate for the specific medical device(s) designed, manufactured, packaged, labeled, stored, installed, and serviced."
  const Cfr820_22Text: string :=
    "Each manufacturer shall establish procedures for quality audits and conduct such audits to assure that the quality system is in compliance with the established quality system requirements and to determine the effectiveness of the quality system."
  const Cfr820_30Text: string :=
    "Each manufacturer of any class II or class III device, and the class I devices listed in paragraph (a)(2) of this section, shall establish and maintain procedures to control the design of the device in order to ensure that specified design requirements are met."
  const Cfr820_50Text: string :=
    "Each manufacturer shall establish and maintain procedures to ensure that all purchased or otherwise received product and services conform to specified requirements."
  const Cfr820_70Text: string :=
    "Each manufacturer shall develop, conduct, control, and monitor production processes to ensure that a device conforms to its specified requirements."
  const Cfr820_100Text: string :=
    "Each manufacturer shall establish and maintain procedures for implementing corrective and preventive action. The procedures shall include requirements for: (a) Analyzing processes, work operations, concessions, quality audit reports, quality records, service records, complaints, returned product, and other sources of quality data to identify existing and potential causes of nonconforming product."
  const Iso4_1Text: string :=
    "The organization shall establish, document, implement and maintain a quality management system and maintain its effectiveness in accordance with the requirements of this International Standard."
  const Iso4_2Text: string :=
    "The quality management system documentation shall include: documented statements of a quality policy and quality objectives, a quality manual, documented procedures and records required by this International Standard."
  const Iso5_1Text: string :=
    "Top management shall provide evidence of its commitment to the development and implementation of the quality management system and to maintaining its effectiveness."
  const Iso7_3Text: string :=
    "The organization shall plan and control the design and development of the medical device. Design and development planning shall determine the design and development stages, the review, verification and validation that are appropriate to each design and development stage."
  const Iso8_2_1Text: string :=
    "As one of the measurements of the performance of the quality management system, the organization shall monitor information relating to customer perception as to whether the organization has met customer requirements."
  const Iso8_5Text: string :=
    "The organization shall continually improve the effectiveness of the quality management system through the use of the quality policy, quality objectives, audit results, analysis of data, corrective actions, preventive actions and management review."
  const MdrArticle1Text: string :=
    "This Regulation lays down rules concerning the placing on the market, making available on the market or putting into service of medical devices for human use and accessories for such devices in the Union."
  const MdrArticle10Text: string :=
    "When placing their devices on the market or putting them into service, manufacturers shall ensure that they have been designed and manufactured in accordance with the requirements of this Regulation."
  const MdrArticle61Text: string :=
    "Clinical evaluation shall be based on clinical data providing sufficient clinical evidence to demonstrate conformity with the relevant general safety and performance requirements."
  const MdrArticle83Text: string :=
    "Manufacturers shall plan, establish, document, implement, maintain and update a post-market surveillance system which shall be proportionate to the risk class and appropriate for the type of device."
  const MdrArticle87Text: string :=
    "Manufacturers shall report to the competent authority of the Member State in which the incident occurred any serious incident involving devices made available by them on the Union market."

  /** FDA Quality System Regulation, 21 CFR Part 820: the ids and titles of
      its sections, their texts, and the standard. */
  const FdaQsrId: string := "fda-qsr"

  const FdaQsrHeadings: seq<(string, string)> := [
      ("820.1", "Scope"),
      ("820.3", "Definitions"),
      ("820.20", "Management Responsibility"),
      ("820.22", "Quality Audit"),
      ("820.30", "Design Controls"),
      ("820.50", "Purchasing Controls"),
      ("820.70", "Production and Process Controls"),
      ("820.100", "Corrective and Preventive Action")
    ]

  const FdaQsrTexts: seq<string> := [
      Cfr820_1Text,
      Cfr820_3Text,
      Cfr820_20Text,
      Cfr820_22Text,
      Cfr820_30Text,
      Cfr820_50Text,
      Cfr820_70Text,
      Cfr820_100Text
    ]

  const FdaQsr: RegulatoryStandard :=
    RegulatoryStandard(
      FdaQsrId,
      "FDA Quality System Regulation (21 CFR Part 820)",
      "Comprehensive quality system requirements for medical device manufacturers in the United States.",
      "U.S. Food and Drug Administration",
      Fda,
      Sections(FdaQsrHeadings, FdaQsrTexts))

  /** ISO 13485:2016. */
  const Iso13485Id: string := "iso-13485"

  const Iso13485Headings: seq<(string, string)> := [
      ("4.1", "General Requirements"),
      ("4.2", "Documentation Requirements"),
      ("5.1", "Management Commitment"),
      ("7.3", "Design and Development"),
      ("8.2.1", "Feedback"),
      ("8.5", "Improvement")
    ]

  const Iso13485Texts: seq<string> := [
      Iso4_1Text,
      Iso4_2Text,
      Iso5_1Text,
      Iso7_3Text,
      Iso8_2_1Text,
      Iso8_5Text
    ]

  const Iso13485: RegulatoryStandard :=
    RegulatoryStandard(
      Iso13485Id,
      "ISO 13485:2016 Medical Devices Quality Management",
      "International standard for quality management systems in medical device organizations.",
      "International Organization for Standardization",
      Iso,
      Sections(Iso13485Headings, Iso13485Texts))

  /** EU Medical Device Regulation 2017/745. */
  const EuMdrId: string := "eu-mdr"

  const EuMdrHeadings: seq<(string, string)> := [
      ("article-1", "Subject Matter and Scope"),
      ("article-10", "General Obligations of Manufacturers"),
      ("article-61", "Clinical Evaluation"),
      ("article-83", "Post-Market Surveillance System"),
      ("article-87", "Reporting of Serious Incidents")
    ]

  const EuMdrTexts: seq<string> := [
      MdrArticle1Text,
      MdrArticle10Text,
      MdrArticle61Text,
      MdrArticle83Text,
      MdrArticle87Text
    ]

  const EuMdr: RegulatoryStandard :=
    RegulatoryStandard(
      EuMdrId,
      "EU Medical Device Regulation (2017/745)",
      "European Union regulation governing medical devices to ensure safety and performance.",
      "European Commission",
      Eu,
      Sections(EuMdrHeadings, EuMdrTexts))

  /** `regulatoryStandards`, in declaration order. */
  const Catalog: seq<RegulatoryStandard> := [FdaQsr, Iso13485, EuMdr]

  /** A standard's sections from their ids and titles and their texts; no
      section of the catalog has subsections. */
  function Sections(headings: seq<(string, string)>, texts: seq<string>): (r: seq<StandardSection>)
    requires |headings| == |texts|
    ensures |r| == |headings|
    ensures forall k :: 0 <= k < |r| ==>
      r[k] == StandardSection(headings[k].0, headings[k].1, texts[k], [])
  {
    seq(|headings|, k requires 0 <= k < |headings| => StandardSection(headings[k].0, headings[k].1, texts[k], []))
  }

  /** The catalog without the section texts: each standard's id with the ids
      and titles of its sections, in the catalog's order. */
  const Outline: seq<(string, seq<(string, string)>)> :=
    [(FdaQsrId, FdaQsrHeadings), (Iso13485Id, Iso13485Headings), (EuMdrId, EuMdrHeadings)]

  /** The outline is the catalog with the texts (and the fields not used for
      lookups) left out. */
  lemma OutlineOfCatalog()
    ensures |Outline| == |Catalog|
    ensures forall i :: 0 <= i < |Catalog| ==>
      Outline[i].0 == Catalog[i].id && |Outline[i].1| == |Catalog[i].sections|
    ensures forall i, k :: 0 <= i < |Catalog| && 0 <= k < |Catalog[i].sections| ==>
      Outline[i].1[k] == (Catalog[i].sections[k].id, Catalog[i].sections[k].title)
  {
  }

  /** The outline's standard ids are pairwise distinct, and so are the section
      ids under each standard. */
  ghost predicate OutlineKeysDistinct()
  {
    && (forall i, j :: 0 <= i < j < |Outline| ==> Outline[i].0 != Outline[j].0)
    && (forall i, k, l :: 0 <= i < |Outline| && 0 <= k < l < |Outline[i].1| ==>
          Outline[i].1[k].0 != Outline[i].1[l].0)
  }

  lemma OutlineKeysAreDistinct()
    ensures OutlineKeysDistinct()
  {
    assert forall k, l :: 0 <= k < l < |FdaQsrHeadings| ==> FdaQsrHeadings[k].0 != FdaQsrHeadings[l].0;
    assert forall k, l :: 0 <= k < l < |Iso13485Headings| ==> Iso13485Headings[k].0 != Iso13485Headings[l].0;
    assert forall k, l :: 0 <= k < l < |EuMdrHeadings| ==> EuMdrHeadings[k].0 != EuMdrHeadings[l].0;
  }

  /** The outline lists, under the standard `standardId`, a section `sectionId` titled `title`. */
  ghost predicate Listed(standardId: string, sectionId: string, title: string)
  {
    exists i, k :: 0 <= i < |Outline| && 0 <= k < |Outline[i].1|
                   && Outline[i].0 == standardId && Outline[i].1[k] == (sectionId, title)
  }

  /** The title of section `sectionId` of standard `standardId`, looked up the
      way `findSection` looks up the section, but on the outline. */
  function SectionTitle(standardId: string, sectionId: string): (r: Option<string>)
    ensures r.Some? ==> Listed(standardId, sectionId, r.value)
    ensures r.None? ==> forall title :: !Listed(standardId, sectionId, title)
  {
    OutlineKeysAreDistinct();
    match FirstIndex(Outline, (e: (string, seq<(string, string)>)) => e.0 == standardId)
    case None => None
    case Some(i) =>
      match FirstIndex(Outline[i].1, (h: (string, string)) => h.0 == sectionId)
      case None => None
      case Some(k) => Some(Outline[i].1[k].1)
  }

  /** The catalog's standard ids are pairwise distinct, and so are the section
      ids within each standard. */
  ghost predicate CatalogKeysDistinct()
  {
    && (forall i, j :: 0 <= i < j < |Catalog| ==> Catalog[i].id != Catalog[j].id)
    && (forall i, k, l :: 0 <= i < |Catalog| && 0 <= k < l < |Catalog[i].sections| ==>
          Catalog[i].sections[k].id != Catalog[i].sections[l].id)
  }

  lemma CatalogKeysAreDistinct()
    ensures CatalogKeysDistinct()
  {
    OutlineKeysAreDistinct();
    OutlineOfCatalog();
  }

  /** `getStandardById`: the first standard whose id equals `id` exactly. */
  function GetStandardById(id: string): (r: Option<RegulatoryStandard>)
    ensures r.None? <==> forall i :: 0 <= i < |Catalog| ==> Catalog[i].id != id
    ensures r.Some? ==> exists i :: 0 <= i < |Catalog| && Catalog[i] == r.value && r.value.id == id
                                    && forall j :: 0 <= j < i ==> Catalog[j].id != id
  {
    match FirstIndex(Catalog, (s: RegulatoryStandard) => s.id == id)
    case None => None
    case Some(i) => Some(Catalog[i])
  }

  /** `findSection`: the first top-level section with id `sectionId` of the
      standard `standardId`; nested subsections are not searched. */
  function FindSection(standardId: string, sectionId: string): (r: Option<StandardSection>)
    ensures GetStandardById(standardId).None? ==> r.None?
    ensures GetStandardById(standardId).Some? ==>
      var sections := GetStandardById(standardId).value.sections;
      && (r.None? <==> forall k :: 0 <= k < |sections| ==> sections[k].id != sectionId)
      && (r.Some? ==> exists k :: 0 <= k < |sections| && sections[k] == r.value && r.value.id == sectionId
                                  && forall j :: 0 <= j < k ==> sections[j].id != sectionId)
  {
    match GetStandardById(standardId)
    case None => None
    case Some(standard) =>
      match FirstIndex(standard.sections, (s: StandardSection) => s.id == sectionId)
      case None => None
      case Some(k) => Some(standard.sections[k])
  }

  /** The catalog holds a section `sectionId` under the standard `standardId`. */
  ghost predicate InCatalog(standardId: string, sectionId: string)
  {
    exists i, k :: 0 <= i < |Catalog| && 0 <= k < |Catalog[i].sections|
                   && Catalog[i].id == standardId && Catalog[i].sections[k].id == sectionId
  }

  /** Every standard of the catalog is found by its own id. */
  lemma GetStandardByIdExact(i: nat)
    requires i < |Catalog|
    ensures GetStandardById(Catalog[i].id) == Some(Catalog[i])
  {
    CatalogKeysAreDistinct();
    var r := GetStandardById(Catalog[i].id);
    var i' :| 0 <= i' < |Catalog| && Catalog[i'] == r.value && r.value.id == Catalog[i].id;
    assert i' == i;
  }

  /** Every (standard, section) pair of the catalog is found, and it is found as exactly that section. */
  lemma FindSectionExact(i: nat, k: nat)
    requires i < |Catalog| && k < |Catalog[i].sections|
    ensures FindSection(Catalog[i].id, Catalog[i].sections[k].id) == Some(Catalog[i].sections[k])
  {
    GetStandardByIdExact(i);
    SectionLookupExact(Catalog[i], k);
  }

  lemma SectionLookupExact(standard: RegulatoryStandard, k: nat)
    requires GetStandardById(standard.id) == Some(standard)
    requires k < |standard.sections|
    ensures FindSection(standard.id, standard.sections[k].id) == Some(standard.sections[k])
  {
    CatalogKeysAreDistinct();
    var sections := standard.sections;
    var s := FindSection(standard.id, sections[k].id);
    var k' :| 0 <= k' < |sections| && sections[k'] == s.value && s.value.id == sections[k].id;
    assert k' == k;
  }

  /** `findSection` finds something exactly for the pairs the catalog holds,
      and what it finds is the catalog's section of that id. */
  lemma FindSectionIff(standardId: string, sectionId: string)
    ensures FindSection(standardId, sectionId).Some? <==> InCatalog(standardId, sectionId)
    ensures FindSection(standardId, sectionId).Some? ==>
      exists i, k :: 0 <= i < |Catalog| && 0 <= k < |Catalog[i].sections| && Catalog[i].id == standardId
                     && Catalog[i].sections[k] == FindSection(standardId, sectionId).value
                     && Catalog[i].sections[k].id == sectionId
  {
    if InCatalog(standardId, sectionId) {
      var i, k :| 0 <= i < |Catalog| && 0 <= k < |Catalog[i].sections|
                  && Catalog[i].id == standardId && Catalog[i].sections[k].id == sectionId;
      FindSectionExact(i, k);
    }
    if FindSection(standardId, sectionId).Some? {
      var std := GetStandardById(standardId).value;
      var i :| 0 <= i < |Catalog| && Catalog[i] == std && std.id == standardId;
      var k :| 0 <= k < |std.sections| && std.sections[k] == FindSection(standardId, sectionId).value
               && std.sections[k].id == sectionId;
      assert Catalog[i].sections[k].id == sectionId;
    }
  }

  /** The outline gives the title of exactly the section `findSection` finds. */
  lemma SectionTitleAgrees(standardId: string, sectionId: string)
    ensures SectionTitle(standardId, sectionId) ==
      match FindSection(standardId, sectionId)
      case Some(section) => Some(section.title)
      case None => None
  {
    FindSectionIff(standardId, sectionId);
    if FindSection(standardId, sectionId).Some? {
      var section := FindSection(standardId, sectionId).value;
      var i, k :| 0 <= i < |Catalog| && 0 <= k < |Catalog[i].sections| && Catalog[i].id == standardId
                  && Catalog[i].sections[k] == section && section.id == sectionId;
      ListedFromCatalog(i, k);
      var t := SectionTitle(standardId, sectionId).value;
      ListedUnique(standardId, sectionId, t, section.title);
    } else if SectionTitle(standardId, sectionId).Some? {
      CatalogFromListed(standardId, sectionId, SectionTitle(standardId, sectionId).value);
    }
  }

  lemma ListedFromCatalog(i: nat, k: nat)
    requires i < |Catalog| && k < |Catalog[i].sections|
    ensures Listed(Catalog[i].id, Catalog[i].sections[k].id, Catalog[i].sections[k].title)
  {
    OutlineOfCatalog();
    assert Outline[i].1[k] == (Catalog[i].sections[k].id, Catalog[i].sections[k].title);
  }

  lemma CatalogFromListed(standardId: string, sectionId: string, title: string)
    requires Listed(standardId, sectionId, title)
    ensures InCatalog(standardId, sectionId)
  {
    OutlineOfCatalog();
    var i, k :| 0 <= i < |Outline| && 0 <= k < |Outline[i].1| && Outline[i].0 == standardId
                && Outline[i].1[k] == (sectionId, title);
    assert Catalog[i].sections[k].id == sectionId;
  }

  /** A standard and section id name at most one title. */
  lemma ListedUnique(standardId: string, sectionId: string, t1: string, t2: string)
    requires Listed(standardId, sectionId, t1) && Listed(standardId, sectionId, t2)
    ensures t1 == t2
  {
    OutlineKeysAreDistinct();
    var i1, k1 :| 0 <= i1 < |Outline| && 0 <= k1 < |Outline[i1].1| && Outline[i1].0 == standardId
                  && Outline[i1].1[k1] == (sectionId, t1);
    var i2, k2 :| 0 <= i2 < |Outline| && 0 <= k2 < |Outline[i2].1| && Outline[i2].0 == standardId
                  && Outline[i2].1[k2] == (sectionId, t2);
    assert i1 == i2;
    assert k1 == k2;
  }

  /** The fields the search looks at: name, description, and each section's
      title and content (not `id`, not `authority`), after lower-casing. */
  predicate Mentions(standard: RegulatoryStandard, lowerQuery: string)
  {
    || Includes(Lower(standard.name), lowerQuery)
    || Includes(Lower(standard.description), lowerQuery)
    || exists section :: section in standard.sections &&
         (Includes(Lower(section.title), lowerQuery) || Includes(Lower(section.content), lowerQuery))
  }

  /** `searchStandards`: the catalog, filtered in declaration order, to the
      standards that mention the lower-cased query. */
  function SearchStandards(query: string): (r: seq<RegulatoryStandard>)
    ensures IsSubsequence(r, Catalog)
    ensures forall k :: 0 <= k < |r| ==> r[k] in Catalog && Mentions(r[k], Lower(query))
    ensures forall i :: 0 <= i < |Catalog| && Mentions(Catalog[i], Lower(query)) ==> Catalog[i] in r
  {
    Filter(Catalog, (s: RegulatoryStandard) => Mentions(s, Lower(query)))
  }

  /** The search never lists a standard twice. */
  lemma SearchNoDuplicates(query: string)
    ensures Distinct(SearchStandards(query))
  {
    CatalogKeysAreDistinct();
    assert Distinct(Catalog);
    SubsequenceOfDistinct(SearchStandards(query), Catalog);
  }

  /** The case of the query does not matter. */
  lemma SearchIgnoresCase(query: string)
    ensures SearchStandards(query) == SearchStandards(Lower(query))
  {
    LowerIdempotent(query);
  }

  /** The empty query matches every field, so it returns the whole catalog;
      an empty result list for an empty box is the browser's own guard. */
  lemma SearchEmptyQuery()
    ensures SearchStandards("") == Catalog
  {
    var p := (s: RegulatoryStandard) => Mentions(s, Lower(""));
    forall i | 0 <= i < |Catalog| ensures p(Catalog[i]) {
      IncludesEmpty(Lower(Catalog[i].name));
    }
    FilterKeepsAll(Catalog, p);
  }

  /** `id` and `authority` play no part in whether a standard matches. */
  lemma MentionsIgnoresIdAndAuthority(standard: RegulatoryStandard, id: string, authority: string, lowerQuery: string)
    ensures Mentions(standard.(id := id, authority := authority), lowerQuery) == Mentions(standard, lowerQuery)
  {
  }
}
