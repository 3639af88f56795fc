/**
 * The navigation data provider of src/utils/navigation.ts: one constant
 * bilingual table, projected per language into localized labels and hrefs.
 */
module NavigationData {
  import opened Wrappers
  import opened Text
  import opened Language

  // ---------------------------------------------------------------- the table

  datatype TableSubItem = TableSubItem(path: string, titleEl: string, titleEn: string,
                                       descriptionEl: string, descriptionEn: string)
  datatype TableColumn = TableColumn(titleEl: string, titleEn: string, items: seq<TableSubItem>)
  datatype TableDropdown = TableDropdown(titleEl: string, titleEn: string, columns: seq<TableColumn>)
  /** An entry of `nav`; absent JavaScript properties are `None`. */
  datatype TableEntry = TableEntry(path: Option<string>, href: Option<string>,
                                   labelEl: string, labelEn: string,
                                   external: Option<bool>, hasDropdown: Option<bool>,
                                   dropdownContent: Option<TableDropdown>)

  // ------------------------------------------------------ the localized items

  datatype SubItem = SubItem(href: string, title: string, titleEl: string, titleEn: string,
                             description: string, descriptionEl: string, descriptionEn: string)
  datatype Column = Column(title: string, titleEl: string, titleEn: string, items: seq<SubItem>)
  datatype DropdownContent = DropdownContent(title: string, titleEl: string, titleEn: string,
                                             columns: seq<Column>)
  /** `NavigationItem` as `getNavigationItems` builds it. */
  datatype NavigationItem = NavigationItem(labelText: string, labelEl: string, labelEn: string,
                                           href: Option<string>, external: Option<bool>,
                                           hasDropdown: Option<bool>,
                                           dropdownContent: Option<DropdownContent>)

  function Page(path: string): Option<string> { Some(path) }

  /** The table `nav`, in source order. */
  const Nav: seq<TableEntry> :=
    [HomeEntry, CompanyEntry, ServicesEntry, ProjectsEntry, ELearningEntry, NewsEntry]

  const HomeEntry := TableEntry(Page("/"), None, "Αρχική", "Home", None, None, None)
  const CompanyEntry :=
    TableEntry(None, None, "Η Εταιρεία μας", "Our Company", None, Some(true), Some(CompanyDropdown))
  const ServicesEntry :=
    TableEntry(None, None, "Υπηρεσίες", "Services", None, Some(true), Some(ServicesDropdown))
  const ProjectsEntry := TableEntry(Page("/projects"), None, "Έργα", "Projects", None, None, None)
  const ELearningEntry :=
    TableEntry(None, Some("https://opuslearning.gr/"), "E-learning", "E-learning", Some(true), None, None)
  const NewsEntry := TableEntry(Page("/news"), None, "Νέα", "News", None, None, None)

  const CompanyDropdown := TableDropdown("Η Εταιρεία μας", "Our Company", [AboutColumn, VisionColumn])
  const AboutColumn := TableColumn("Σχετικά με εμάς", "About Us", [
    TableSubItem("/ourcompany/overview", "Επισκόπηση Εταιρείας", "Company Overview",
      "Μάθετε για την αποστολή και τις αξίες μας", "Learn about our mission and values"),
    TableSubItem("/ourcompany/history", "Η Ιστορία μας", "Our History",
      "Ανακαλύψτε το ταξίδι και τα ορόσημα μας", "Discover our journey and milestones")
  ])
  const VisionColumn := TableColumn("Το Όραμά μας", "Our Vision", [
    TableSubItem("/vision/mission", "Δήλωση Αποστολής", "Mission Statement",
      "Η δέσμευσή μας για την αριστεία", "Our commitment to excellence"),
    TableSubItem("/vision/goals", "Στρατηγικοί Στόχοι", "Strategic Goals",
      "Ο δρόμος μας για το μέλλον", "Our roadmap for the future"),
    TableSubItem("/vision/sustainability", "Βιωσιμότητα", "Sustainability",
      "Περιβαλλοντική και κοινωνική ευθύνη", "Environmental and social responsibility")
  ])

  const ServicesDropdown := TableDropdown("Οι Υπηρεσίες μας", "Our Services", [ServicesColumnA, ServicesColumnB])
  const ServicesColumnA := TableColumn("Υπηρεσίες", "Services", [
    TableSubItem("/services/public-sector-consulting",
      "Συμβουλευτικές υπηρεσίες στον δημόσιο τομέα", "Consulting services in the public sector",
      "Στρατηγική συμβουλή και συμβουλευτική για δημόσιους φορείς",
      "Strategic advisory and consulting for public institutions"),
    TableSubItem("/services/technology",
      "Τεχνολογία και πληροφορική", "Technology and information technology",
      "Στρατηγική IT, ψηφιακός μετασχηματισμός και τεχνολογικές λύσεις",
      "IT strategy, digital transformation, and technology solutions"),
    TableSubItem("/services/investment-management",
      "Διαχείριση επενδυτικών έργων", "Investment project management",
      "Ολοκληρωμένη εποπτεία και παράδοση έργων",
      "End-to-end project oversight and delivery"),
    TableSubItem("/services/strategic-planning",
      "Στρατηγικός και λειτουργικός σχεδιασμός", "Strategic and operational planning",
      "Μακροπρόθεσμος στρατηγικός δρόμος και λειτουργική βελτιστοποίηση",
      "Long-term strategic roadmap and operational optimization")
  ])
  const ServicesColumnB := TableColumn("Υπηρεσίες", "Services", [
    TableSubItem("/services/energy-studies",
      "Ενεργειακές μελέτες", "Energy studies",
      "Περιεκτική ανάλυση και μελέτες του ενεργειακού τομέα",
      "Comprehensive energy sector analysis and studies"),
    TableSubItem("/services/quality-management",
      "Συστήματα Διαχείρισης Ποιότητας", "Quality Management Systems",
      "Εφαρμογή και πιστοποίηση συστημάτων ISO και ποιότητας",
      "ISO and quality system implementation and certification"),
    TableSubItem("/services/feasibility-studies",
      "Μελέτες Σκοπιμότητας", "Feasibility Studies",
      "Συστηματική αξιολόγηση βιωσιμότητας και σκοπιμότητας έργων",
      "Thorough project viability and feasibility assessment"),
    TableSubItem("/services/esg-strategy",
      "Στρατηγική & Εφαρμογή ESG", "ESG Strategy & Implementation",
      "Στρατηγική και εφαρμογή Περιβαλλοντικών, Κοινωνικών και Διακυβερνητικών θεμάτων",
      "Environmental, Social, and Governance strategy and implementation")
  ])

  // ------------------------------------------------------------ projection

  /** `language === 'el' ? el : en` */
  function Pick(language: Lang, el: string, en: string): string
  {
    if language == El then el else en
  }

  /** `createUrl`: the English variant of a path is `/en` + the path; the Greek one is the path. */
  function CreateUrl(path: string, lang: Lang): string
  {
    if lang == En then "/en" + path else path
  }

  /** JavaScript truthiness of an optional string property. */
  predicate Truthy(s: Option<string>) { s.Some? && s.value != "" }

  function ProjectSubItem(s: TableSubItem, l: Lang): SubItem
  {
    SubItem(CreateUrl(s.path, l), Pick(l, s.titleEl, s.titleEn), s.titleEl, s.titleEn,
            Pick(l, s.descriptionEl, s.descriptionEn), s.descriptionEl, s.descriptionEn)
  }

  /** `col.items.map(...)` */
  function ProjectSubItems(items: seq<TableSubItem>, l: Lang): (r: seq<SubItem>)
    ensures |r| == |items|
    ensures forall i :: 0 <= i < |items| ==> r[i] == ProjectSubItem(items[i], l)
  {
    if items == [] then [] else [ProjectSubItem(items[0], l)] + ProjectSubItems(items[1..], l)
  }

  function ProjectColumn(c: TableColumn, l: Lang): Column
  {
    Column(Pick(l, c.titleEl, c.titleEn), c.titleEl, c.titleEn, ProjectSubItems(c.items, l))
  }

  /** `item.dropdownContent.columns.map(...)` */
  function ProjectColumns(cols: seq<TableColumn>, l: Lang): (r: seq<Column>)
    ensures |r| == |cols|
    ensures forall i :: 0 <= i < |cols| ==> r[i] == ProjectColumn(cols[i], l)
  {
    if cols == [] then [] else [ProjectColumn(cols[0], l)] + ProjectColumns(cols[1..], l)
  }

  function ProjectDropdown(d: TableDropdown, l: Lang): DropdownContent
  {
    DropdownContent(Pick(l, d.titleEl, d.titleEn), d.titleEl, d.titleEn, ProjectColumns(d.columns, l))
  }

  /** The body of the `nav.map` callback. */
  function ProjectEntry(e: TableEntry, l: Lang): (r: NavigationItem)
    ensures Projects(e, r, l)
  {
    NavigationItem(
      Pick(l, e.labelEl, e.labelEn), e.labelEl, e.labelEn,
      if Truthy(e.path) then Some(CreateUrl(e.path.value, l))
      else if Truthy(e.href) then e.href
      else None,
      e.external, e.hasDropdown,
      if e.dropdownContent.Some? then Some(ProjectDropdown(e.dropdownContent.value, l)) else None)
  }

  /** What one localized item promises about the table entry it comes from. */
  ghost predicate Projects(e: TableEntry, r: NavigationItem, l: Lang)
  {
    && (r.labelText == if l == El then e.labelEl else e.labelEn)
    && r.labelEl == e.labelEl && r.labelEn == e.labelEn
    && r.external == e.external && r.hasDropdown == e.hasDropdown
    && (Truthy(e.path) ==> r.href == Some(CreateUrl(e.path.value, l)))
    && (!Truthy(e.path) && Truthy(e.href) ==> r.href == e.href)
    && (!Truthy(e.path) && !Truthy(e.href) ==> r.href == None)
    && (r.dropdownContent.Some? <==> e.dropdownContent.Some?)
    && (e.dropdownContent.Some? ==> DropdownProjects(e.dropdownContent.value, r.dropdownContent.value, l))
  }

  ghost predicate DropdownProjects(d: TableDropdown, r: DropdownContent, l: Lang)
  {
    && (r.title == if l == El then d.titleEl else d.titleEn)
    && r.titleEl == d.titleEl && r.titleEn == d.titleEn
    && |r.columns| == |d.columns|
    && forall c :: 0 <= c < |d.columns| ==> ColumnProjects(d.columns[c], r.columns[c], l)
  }

  ghost predicate ColumnProjects(c: TableColumn, r: Column, l: Lang)
  {
    && (r.title == if l == El then c.titleEl else c.titleEn)
    && r.titleEl == c.titleEl && r.titleEn == c.titleEn
    && |r.items| == |c.items|
    && forall k :: 0 <= k < |c.items| ==> SubItemProjects(c.items[k], r.items[k], l)
  }

  ghost predicate SubItemProjects(s: TableSubItem, r: SubItem, l: Lang)
  {
    && r.href == CreateUrl(s.path, l)
    && (r.title == if l == El then s.titleEl else s.titleEn)
    && (r.description == if l == El then s.descriptionEl else s.descriptionEn)
    && r.titleEl == s.titleEl && r.titleEn == s.titleEn
    && r.descriptionEl == s.descriptionEl && r.descriptionEn == s.descriptionEn
  }

  /** `nav.map(...)` */
  function ProjectEntries(entries: seq<TableEntry>, l: Lang): (r: seq<NavigationItem>)
    ensures |r| == |entries|
    ensures forall i :: 0 <= i < |entries| ==> Projects(entries[i], r[i], l)
  {
    if entries == [] then [] else [ProjectEntry(entries[0], l)] + ProjectEntries(entries[1..], l)
  }

  /** `getNavigationItems`: one localized item per table entry, in table order. */
  function GetNavigationItems(language: Lang): (r: seq<NavigationItem>)
    ensures |r| == |Nav| == 6
    ensures forall i :: 0 <= i < |Nav| ==> Projects(Nav[i], r[i], language)
  {
    ProjectEntries(Nav, language)
  }

  // --------------------------------------------------------------- lemmas

  /** Both languages give items of the same number and order: the same bilingual labels, flags and dropdown shape. */
  lemma SameShapeInBothLanguages(i: nat)
    requires i < |Nav|
    ensures |GetNavigationItems(El)| == |GetNavigationItems(En)|
    ensures GetNavigationItems(El)[i].labelEl == GetNavigationItems(En)[i].labelEl
    ensures GetNavigationItems(El)[i].labelEn == GetNavigationItems(En)[i].labelEn
    ensures GetNavigationItems(El)[i].hasDropdown == GetNavigationItems(En)[i].hasDropdown
    ensures GetNavigationItems(El)[i].external == GetNavigationItems(En)[i].external
    ensures GetNavigationItems(El)[i].href.Some? == GetNavigationItems(En)[i].href.Some?
    ensures GetNavigationItems(El)[i].dropdownContent.Some? == GetNavigationItems(En)[i].dropdownContent.Some?
  {
    var a, b := GetNavigationItems(El), GetNavigationItems(En);
    assert Projects(Nav[i], a[i], El) && Projects(Nav[i], b[i], En);
  }

  predicate Rooted(p: string) { StartsWith(p, "/") }

  /** Every path of a column starts with `/`. */
  predicate ColumnRooted(c: TableColumn)
  {
    forall k :: 0 <= k < |c.items| ==> Rooted(c.items[k].path)
  }

  /** Every path of an entry, top-level or in its dropdown, starts with `/`. */
  predicate PathsRooted(e: TableEntry)
  {
    && (e.path.Some? ==> Rooted(e.path.value))
    && (e.dropdownContent.Some? ==>
          forall c :: 0 <= c < |e.dropdownContent.value.columns| ==> ColumnRooted(e.dropdownContent.value.columns[c]))
  }

  lemma RootedByFirstChar(p: string)
    requires |p| > 0 && p[0] == '/'
    ensures Rooted(p)
  {
    assert p[..1] == "/";
  }

  lemma ColumnRootedByFirstChars(c: TableColumn)
    requires forall k :: 0 <= k < |c.items| ==> |c.items[k].path| > 0 && c.items[k].path[0] == '/'
    ensures ColumnRooted(c)
  {
    forall k | 0 <= k < |c.items| ensures Rooted(c.items[k].path) {
      RootedByFirstChar(c.items[k].path);
    }
  }

  lemma TablePathsRooted()
    ensures forall i :: 0 <= i < |Nav| ==> PathsRooted(Nav[i])
  {
    RootedByFirstChar("/");
    RootedByFirstChar("/projects");
    RootedByFirstChar("/news");
    ColumnRootedByFirstChars(AboutColumn);
    ColumnRootedByFirstChars(VisionColumn);
    ColumnRootedByFirstChars(ServicesColumnA);
    ColumnRootedByFirstChars(ServicesColumnB);
    assert ColumnRooted(AboutColumn);
    assert ColumnRooted(VisionColumn);
    assert ColumnRooted(ServicesColumnA);
    assert ColumnRooted(ServicesColumnB);
    assert PathsRooted(CompanyEntry);
    assert PathsRooted(ServicesEntry);
  }

  /** On a rooted path `createUrl` agrees with the language resolver's `addLanguageToPath`. */
  lemma CreateUrlIsAddLanguage(p: string, l: Lang)
    requires StartsWith(p, "/")
    ensures CreateUrl(p, l) == AddLanguageToPath(p, l)
  {
  }

  /** Hence every internal href the provider builds, top-level or in a dropdown, is the resolver's localized path. */
  lemma HrefsUseLanguageResolver(l: Lang, i: nat)
    requires i < |Nav|
    ensures Truthy(Nav[i].path) ==>
              GetNavigationItems(l)[i].href == Some(AddLanguageToPath(Nav[i].path.value, l))
    ensures Nav[i].dropdownContent.Some? ==>
              var d := GetNavigationItems(l)[i].dropdownContent.value;
              forall c, k :: 0 <= c < |d.columns| && 0 <= k < |d.columns[c].items| ==>
                d.columns[c].items[k].href ==
                  AddLanguageToPath(Nav[i].dropdownContent.value.columns[c].items[k].path, l)
  {
    TablePathsRooted();
    EntryHrefsUseLanguageResolver(Nav[i], GetNavigationItems(l)[i], l);
  }

  lemma EntryHrefsUseLanguageResolver(e: TableEntry, r: NavigationItem, l: Lang)
    requires PathsRooted(e) && Projects(e, r, l)
    ensures Truthy(e.path) ==> r.href == Some(AddLanguageToPath(e.path.value, l))
    ensures e.dropdownContent.Some? ==>
              var d := r.dropdownContent.value;
              forall c, k :: 0 <= c < |d.columns| && 0 <= k < |d.columns[c].items| ==>
                d.columns[c].items[k].href == AddLanguageToPath(e.dropdownContent.value.columns[c].items[k].path, l)
  {
    if e.dropdownContent.Some? {
      var td := e.dropdownContent.value;
      var d := r.dropdownContent.value;
      forall c, k | 0 <= c < |d.columns| && 0 <= k < |d.columns[c].items|
        ensures d.columns[c].items[k].href == AddLanguageToPath(td.columns[c].items[k].path, l)
      {
        assert ColumnProjects(td.columns[c], d.columns[c], l);
        assert ColumnRooted(td.columns[c]);
        assert SubItemProjects(td.columns[c].items[k], d.columns[c].items[k], l);
        CreateUrlIsAddLanguage(td.columns[c].items[k].path, l);
      }
    }
  }

  /** Home is `/` in Greek and `/en/` in English. */
  lemma HomeHref()
    ensures GetNavigationItems(El)[0].href == Some("/")
    ensures GetNavigationItems(En)[0].href == Some("/en/")
  {
    assert Nav[0] == HomeEntry;
    assert "/en" + "/" == "/en/";
    assert Projects(HomeEntry, GetNavigationItems(El)[0], El);
    assert Projects(HomeEntry, GetNavigationItems(En)[0], En);
  }

  /** The E-learning entry keeps its absolute href in both languages and is marked external. */
  lemma ELearningIsExternal(l: Lang)
    ensures GetNavigationItems(l)[4].labelEn == "E-learning"
    ensures GetNavigationItems(l)[4].href == Some("https://opuslearning.gr/")
    ensures GetNavigationItems(l)[4].external == Some(true)
  {
    assert Nav[4] == ELearningEntry;
    assert Projects(ELearningEntry, GetNavigationItems(l)[4], l);
  }

  /** The dropdown parents carry no href, and a dropdown is present exactly on the entries flagged `hasDropdown`. */
  lemma DropdownParents(l: Lang, i: nat)
    requires i < |Nav|
    ensures GetNavigationItems(l)[i].dropdownContent.Some? <==> GetNavigationItems(l)[i].hasDropdown == Some(true)
    ensures GetNavigationItems(l)[i].dropdownContent.Some? ==> GetNavigationItems(l)[i].href == None
    ensures GetNavigationItems(l)[i].dropdownContent.Some? <==> i == 1 || i == 2
  {
    var items := GetNavigationItems(l);
    assert Projects(Nav[i], items[i], l);
    assert Nav[i].dropdownContent.Some? <==> Nav[i].hasDropdown == Some(true) by {
      if i == 0 { assert Nav[0] == HomeEntry; }
      else if i == 1 { assert Nav[1] == CompanyEntry; }
      else if i == 2 { assert Nav[2] == ServicesEntry; }
      else if i == 3 { assert Nav[3] == ProjectsEntry; }
      else if i == 4 { assert Nav[4] == ELearningEntry; }
      else { assert Nav[5] == NewsEntry; }
    }
  }
}
