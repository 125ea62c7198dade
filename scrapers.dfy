/** The per-site scrapers: number extraction and the records each site's
    `scrape()` builds from its parsed page.

    A fetched page is abstracted to what the scrapers read from it: the
    cell texts of its tables (concursosnobrasil) and, for every other site,
    the elements its `find_all` selector returns, each reduced to the texts
    the scraper reads from that element. A failed fetch is `None`. */
module Scrapers {
  import opened Common
  import opened Text

  /** One scraped opening: the dictionary every `scrape()` appends. */
  datatype Concurso = Concurso(
    titulo: string,
    organizacao: string,
    vagas: int,
    banca: Option<string>,   // present only in the VUNESP, Cebraspe and FGV records
    status: string,
    fonte: string,
    linkEdital: string,
    dataPublicacao: string)  // the scrape date, supplied by the caller

  /** Python's default limit on the digits `int()` converts (3.11, and the
      3.7.14, 3.8.14, 3.9.14 and 3.10.7 releases);
      a longer run raises ValueError, which `extrair_numero` turns into 0. */
  const INT_MAX_STR_DIGITS := 4300

  /** `Scraper.extrair_numero`: the value of the first run of digits once every
      `.` and `,` is deleted, 0 when there is none. */
  function ExtrairNumero(texto: string): (n: nat)
    ensures (forall k :: 0 <= k < |texto| ==> !IsDigit(texto[k])) ==> n == 0
  {
    var c := RemoveSeparators(texto);
    var i := FirstDigitFrom(c, 0);
    if i == |c| then 0
    else
      var j := DigitRunEnd(c, i);
      assert c[i] in texto;
      if j - i > INT_MAX_STR_DIGITS then 0 else DigitsValue(c[i..j])
  }

  /** Whatever way the cleaned text splits into a digit-free prefix, a
      maximal run of digits and the rest, the result is that run's value. */
  lemma ExtrairNumeroFirstRun(texto: string, i: nat, j: nat)
    requires i < j <= |RemoveSeparators(texto)|
    requires forall k :: 0 <= k < i ==> !IsDigit(RemoveSeparators(texto)[k])
    requires forall k :: i <= k < j ==> IsDigit(RemoveSeparators(texto)[k])
    requires j == |RemoveSeparators(texto)| || !IsDigit(RemoveSeparators(texto)[j])
    ensures ExtrairNumero(texto) ==
            if j - i <= INT_MAX_STR_DIGITS then DigitsValue(RemoveSeparators(texto)[i..j]) else 0
  {
    var c := RemoveSeparators(texto);
    assert IsDigit(c[i]);
  }

  /** A string made only of digits converts to its own value. */
  lemma ExtrairNumeroAllDigits(s: string)
    requires s != [] && AllDigits(s) && |s| <= INT_MAX_STR_DIGITS
    ensures ExtrairNumero(s) == DigitsValue(s)
  {
    RemoveSeparatorsNone(s);
    ExtrairNumeroFirstRun(s, 0, |s|);
    assert s[0..|s|] == s;
  }

  /** A run too long for `int()` makes the conversion raise, and the
      exception handler answers 0. */
  lemma ExtrairNumeroTooLong(s: string)
    requires AllDigits(s) && |s| > INT_MAX_STR_DIGITS
    ensures ExtrairNumero(s) == 0
  {
    RemoveSeparatorsNone(s);
    ExtrairNumeroFirstRun(s, 0, |s|);
  }

  /** When the cleaned text starts with a run of digits, that run's value is
      the result. */
  lemma ExtrairNumeroLeadingRun(texto: string, ds: string, rest: string)
    requires RemoveSeparators(texto) == ds + rest
    requires ds != [] && AllDigits(ds) && |ds| <= INT_MAX_STR_DIGITS
    requires rest == [] || !IsDigit(rest[0])
    ensures ExtrairNumero(texto) == DigitsValue(ds)
  {
    assert (ds + rest)[0..|ds|] == ds;
    ExtrairNumeroFirstRun(texto, 0, |ds|);
  }

  /** A thousands separator or decimal comma between two runs of digits is
      deleted before matching, so the runs read as one number: "1.234" gives
      1234 and "1,5" gives 15. */
  lemma ExtrairNumeroSeparated(a: string, sep: char, b: string)
    requires a != [] && AllDigits(a) && AllDigits(b)
    requires IsSeparator(sep)
    requires |a| + |b| <= INT_MAX_STR_DIGITS
    ensures ExtrairNumero(a + [sep] + b) == DigitsValue(a + b)
  {
    SeparatorRemoved(a, sep, b);
    assert a + b == (a + b) + [];
    ExtrairNumeroLeadingRun(a + [sep] + b, a + b, []);
  }

  lemma SeparatorRemoved(a: string, sep: char, b: string)
    requires AllDigits(a) && AllDigits(b) && IsSeparator(sep)
    ensures RemoveSeparators(a + [sep] + b) == a + b
  {
    var tail := [sep] + b;
    assert a + [sep] + b == a + tail;
    assert tail[1..] == b;
    DigitsKept(b);
    assert RemoveSeparators(tail) == b;
    DigitsKept(a);
    RemoveSeparatorsAppend(a, tail);
  }

  lemma DigitsKept(s: string)
    requires AllDigits(s)
    ensures RemoveSeparators(s) == s
  {
    RemoveSeparatorsNone(s);
  }

  // ---------------------------------------------------------------------
  // The parsed page
  // ---------------------------------------------------------------------

  /** One element returned by a site's `find_all` selector. */
  datatype Item = Item(
    title: Option<string>,   // text of the element's title child (`item.find(...)`), None if it has none
    vagas: Option<string>,   // text of its `span.vagas` child (read by qconcursos only)
    text: string)            // `item.text`, the element's whole text

  /** The texts of a table row's `td` cells. */
  type Cells = seq<string>

  /** A table's `tr` rows, header row first. */
  type Table = seq<Cells>

  datatype Page = Page(tables: seq<Table>, items: seq<Item>)

  // ---------------------------------------------------------------------
  // The sixteen sites that share one template
  // ---------------------------------------------------------------------

  /** Where the title comes from: the element's title child, or (for
      concursos.com.br) the element's own text, kept only when longer than
      `minLength`. */
  datatype TitleSource = TitleElement | OwnText(minLength: nat)

  /** `titulo.split('-')[0].strip()` or a fixed organisation name. */
  datatype OrgRule = OrgFromTitle | OrgFixed(name: string)

  /** The extracted count of `span.vagas` or of the element's whole text,
      replaced by `fallback` unless positive; or a fixed count. */
  datatype VagasRule = VagasElement(fallback: int) | ItemText(fallback: int) | Constant(n: int)

  datatype Site = Site(
    fonte: string,
    url: string,
    cap: nat,             // only the first `cap` elements are read (`items[:cap]`)
    title: TitleSource,
    suffix: string,       // appended to the title (`f'{titulo} - VUNESP'`)
    org: OrgRule,
    vagas: VagasRule,
    banca: Option<string>)

  const QCONCURSOS := Site("qconcursos", "https://www.qconcursos.com/", 40,
    TitleElement, "", OrgFromTitle, VagasElement(5), None)
  const ACHE_CONCURSOS := Site("acheconcursos", "https://www.acheconcursos.com.br/concursos-brasil", 40,
    TitleElement, "", OrgFromTitle, ItemText(3), None)
  const CONCURSOS_COM_BR := Site("concursos.com.br", "https://www.concursos.com.br/", 30,
    OwnText(5), "", OrgFromTitle, Constant(10), None)
  const JC_CONCURSOS := Site("jcconcursos", "https://jcconcursos.uol.com.br/", 35,
    TitleElement, "", OrgFromTitle, ItemText(8), None)
  const VUNESP := Site("vunesp", "https://www.vunesp.com.br/", 30,
    TitleElement, " - VUNESP", OrgFixed("VUNESP"), ItemText(15), Some("Fundação Vunesp"))
  const CENTRAL_DE_CONCURSOS := Site("centraldeconcursos", "https://www.centraldeconcursos.com.br/", 30,
    TitleElement, "", OrgFixed("Central de Concursos SP"), Constant(12), None)
  const PIC_APROVA := Site("picaprova", "https://www.picaprova.com.br/", 25,
    TitleElement, "", OrgFixed("PIC Aprova"), Constant(7), None)
  const GLOBAL_CONCURSOS := Site("globalconcursos", "https://www.globalconcursos.com.br/", 25,
    TitleElement, "", OrgFixed("Global Concursos"), Constant(6), None)
  const SA_CONCURSOS := Site("saconcursos", "https://www.saconcursos.com.br/", 25,
    TitleElement, "", OrgFixed("SA Concursos"), Constant(5), None)
  const CEBRASPE := Site("cebraspe", "https://www.cebraspe.org.br/concursos/", 20,
    TitleElement, " - Cebraspe", OrgFixed("Cebraspe/Cespe"), Constant(20), Some("Cebraspe"))
  const FGV := Site("fgv", "https://conhecimento.fgv.br/concursos", 20,
    TitleElement, " - FGV", OrgFixed("FGV"), Constant(18), Some("Fundação Getulio Vargas"))
  const NOVA_CONCURSOS := Site("novaconcursos", "https://www.novaconcursos.com.br/", 25,
    TitleElement, "", OrgFixed("Nova Concursos"), Constant(14), None)
  const APROVA_CONCURSOS := Site("aprovaconcursos", "https://www.aprovaconcursos.com.br/", 22,
    TitleElement, "", OrgFixed("Aprova Concursos"), Constant(11), None)
  const CASA_DO_CONCURSEIRO := Site("casadoconcurseiro", "https://www.casadoconcurseiro.com.br/", 20,
    TitleElement, "", OrgFixed("Casa do Concurseiro"), Constant(9), None)
  const DIRECAO_CONCURSOS := Site("direcaoconcursos", "https://www.direcaoconcursos.com.br/", 20,
    TitleElement, "", OrgFixed("Direção Concursos"), Constant(13), None)
  const EDITAL_CONCURSOS_BRASIL := Site("editalconcursosbrasil", "https://editalconcursosbrasil.com.br/", 20,
    TitleElement, "", OrgFixed("Edital Concursos Brasil"), Constant(8), None)

  /** Every fallback and fixed count of the site is positive. */
  predicate PositiveCounts(site: Site) {
    match site.vagas
    case VagasElement(d) => d > 0
    case ItemText(d) => d > 0
    case Constant(n) => n > 0
  }

  /** The stripped title a site reads from one element, or None when it
      skips the element (`if titulo_elem:`; for concursos.com.br
      `if titulo and len(titulo) > 5:`). */
  function ItemTitle(site: Site, item: Item): Option<string> {
    match site.title
    case TitleElement =>
      if item.title.Some? then Some(Strip(item.title.value)) else None
    case OwnText(minLength) =>
      var t := Strip(item.text);
      if t != "" && |t| > minLength then Some(t) else None
  }

  function Organizacao(rule: OrgRule, titulo: string): string {
    match rule
    case OrgFromTitle => Strip(BeforeDash(titulo))
    case OrgFixed(name) => name
  }

  function Vagas(rule: VagasRule, item: Item): int {
    match rule
    case VagasElement(fallback) =>
      var n := if item.vagas.Some? then ExtrairNumero(item.vagas.value) else 0;
      if n > 0 then n else fallback
    case ItemText(fallback) =>
      var n := ExtrairNumero(item.text);
      if n > 0 then n else fallback
    case Constant(n) => n
  }

  /** The record a site appends for an element whose title is `titulo`. */
  function MakeConcurso(site: Site, titulo: string, item: Item, today: string): Concurso {
    Concurso(titulo + site.suffix, Organizacao(site.org, titulo), Vagas(site.vagas, item),
             site.banca, "open", site.fonte, site.url, today)
  }

  /** What every record of a template site looks like. */
  predicate TemplateShape(site: Site, c: Concurso, today: string) {
    && c.status == "open"
    && c.fonte == site.fonte
    && c.linkEdital == site.url
    && c.dataPublicacao == today
    && c.banca == site.banca
    && |site.suffix| <= |c.titulo|
    && c.titulo[|c.titulo| - |site.suffix|..] == site.suffix
    && (site.title.OwnText? ==> |c.titulo| > site.title.minLength)
    && (site.org.OrgFromTitle? ==> '-' !in c.organizacao && Stripped(c.organizacao))
    && (site.org.OrgFixed? ==> c.organizacao == site.org.name)
    && (PositiveCounts(site) ==> c.vagas > 0)
  }

  /** The records (zero or one) a site builds from one element. */
  function ItemRecords(site: Site, item: Item, today: string): (r: seq<Concurso>)
    ensures |r| <= 1
  {
    match ItemTitle(site, item)
    case Some(titulo) => [MakeConcurso(site, titulo, item, today)]
    case None => []
  }

  lemma ItemRecordsShape(site: Site, item: Item, today: string)
    ensures forall c :: c in ItemRecords(site, item, today) ==> TemplateShape(site, c, today)
  {
    match ItemTitle(site, item)
    case Some(titulo) =>
      MakeConcursoShape(site, titulo, item, today);
      assert ItemRecords(site, item, today) == [MakeConcurso(site, titulo, item, today)];
    case None =>
  }

  lemma MakeConcursoShape(site: Site, titulo: string, item: Item, today: string)
    requires ItemTitle(site, item) == Some(titulo)
    ensures TemplateShape(site, MakeConcurso(site, titulo, item, today), today)
  {
    var c := MakeConcurso(site, titulo, item, today);
    EndsWith(titulo, site.suffix);
    if site.title.OwnText? {
      OwnTextLength(site, item, titulo);
    }
    if site.org.OrgFromTitle? {
      OrganizacaoFromTitle(titulo);
    }
    if PositiveCounts(site) {
      VagasPositive(site, item);
    }
  }

  lemma EndsWith(t: string, suffix: string)
    ensures (t + suffix)[|t + suffix| - |suffix|..] == suffix
  {
  }

  lemma OwnTextLength(site: Site, item: Item, titulo: string)
    requires site.title.OwnText? && ItemTitle(site, item) == Some(titulo)
    ensures |titulo| > site.title.minLength
  {
  }

  /** `titulo.split('-')[0].strip()` has no hyphen and no surrounding
      whitespace. */
  lemma OrganizacaoFromTitle(titulo: string)
    ensures '-' !in Strip(BeforeDash(titulo)) && Stripped(Strip(BeforeDash(titulo)))
  {
    StripOmits(BeforeDash(titulo), '-');
  }

  lemma VagasPositive(site: Site, item: Item)
    requires PositiveCounts(site)
    ensures Vagas(site.vagas, item) > 0
  {
  }

  /** The records a template site builds from the elements it reads. */
  function TemplateRecords(site: Site, items: seq<Item>, today: string): (r: seq<Concurso>)
    ensures |r| <= |items|
  {
    if items == [] then []
    else TemplateRecords(site, items[..|items| - 1], today) + ItemRecords(site, items[|items| - 1], today)
  }

  /** Every record a template site builds has the site's shape. */
  lemma {:induction false} TemplateRecordsShape(site: Site, items: seq<Item>, today: string)
    ensures forall c :: c in TemplateRecords(site, items, today) ==> TemplateShape(site, c, today)
  {
    if items != [] {
      TemplateRecordsShape(site, items[..|items| - 1], today);
      ItemRecordsShape(site, items[|items| - 1], today);
    }
  }

  /** Records follow element order: the records of a concatenation are the
      records of each part, in turn. */
  lemma {:induction false} TemplateRecordsAppend(site: Site, a: seq<Item>, b: seq<Item>, today: string)
    ensures TemplateRecords(site, a + b, today) == TemplateRecords(site, a, today) + TemplateRecords(site, b, today)
    decreases |b|
  {
    if b == [] {
      assert a + b == a;
    } else {
      var ab, b' := a + b, b[..|b| - 1];
      assert ab[..|ab| - 1] == a + b' && ab[|ab| - 1] == b[|b| - 1];
      TemplateRecordsLast(site, ab, today);
      TemplateRecordsAppend(site, a, b', today);
      TemplateRecordsLast(site, b, today);
      ConcatAssoc(TemplateRecords(site, a, today), TemplateRecords(site, b', today), ItemRecords(site, b[|b| - 1], today));
    }
  }

  lemma TemplateRecordsLast(site: Site, items: seq<Item>, today: string)
    requires items != []
    ensures TemplateRecords(site, items, today)
         == TemplateRecords(site, items[..|items| - 1], today) + ItemRecords(site, items[|items| - 1], today)
  {
  }

  lemma ConcatAssoc<T>(x: seq<T>, y: seq<T>, z: seq<T>)
    ensures x + y + z == x + (y + z)
  {
  }

  /** One element yields exactly one record when the site finds a title in
      it, and none otherwise. */
  lemma TemplateRecordsOne(site: Site, item: Item, today: string)
    ensures |TemplateRecords(site, [item], today)| == if ItemTitle(site, item).Some? then 1 else 0
  {
    assert [item][..0] == [];
  }

  lemma TemplateRecordsSnoc(site: Site, items: seq<Item>, i: nat, today: string)
    requires i < |items|
    ensures TemplateRecords(site, items[..i + 1], today)
         == TemplateRecords(site, items[..i], today) + ItemRecords(site, items[i], today)
  {
    assert items[..i + 1][..i] == items[..i];
  }

  /** What a template site's `scrape()` returns for a fetch result: nothing
      when the fetch failed, otherwise at most `cap` records, all of the
      site's shape. */
  function TemplateOutput(site: Site, fetched: Option<Page>, today: string): (r: seq<Concurso>)
    ensures fetched.None? ==> r == []
    ensures fetched.Some? ==> |r| <= Min(site.cap, |fetched.value.items|)
    ensures forall c :: c in r ==> TemplateShape(site, c, today)
  {
    match fetched
    case None => []
    case Some(page) =>
      var capped := page.items[..Min(site.cap, |page.items|)];
      TemplateRecordsShape(site, capped, today);
      TemplateRecords(site, capped, today)
  }

  /** The `scrape()` of a template site. */
  method ScrapeTemplate(site: Site, fetched: Option<Page>, today: string) returns (concursos: seq<Concurso>)
    ensures concursos == TemplateOutput(site, fetched, today)
  {
    concursos := [];
    if fetched.None? {
      return;
    }
    var items := fetched.value.items;
    var capped := items[..Min(site.cap, |items|)];
    for i := 0 to |capped|
      invariant concursos == TemplateRecords(site, capped[..i], today)
    {
      var item := capped[i];
      var titulo := ItemTitle(site, item);
      if titulo.Some? {
        concursos := concursos + [MakeConcurso(site, titulo.value, item, today)];
      }
      TemplateRecordsSnoc(site, capped, i, today);
    }
    assert capped[..|capped|] == capped;
  }

  // ---------------------------------------------------------------------
  // concursosnobrasil.com: a table-driven site
  // ---------------------------------------------------------------------

  const NO_BRASIL_URL := "https://concursosnobrasil.com/concursos/"
  const NO_BRASIL_LIMIT := 50

  /** Python's `s[1:]`. */
  function Tail<T>(s: seq<T>): seq<T> {
    if s == [] then [] else s[1..]
  }

  /** What every concursosnobrasil record looks like. */
  predicate NoBrasilShape(c: Concurso, today: string) {
    && c.organizacao != ""
    && Stripped(c.organizacao)
    && c.titulo == c.organizacao + " - Concurso Público"
    && c.vagas > 0
    && c.banca == None
    && c.status == "open"
    && c.fonte == "concursosnobrasil"
    && c.linkEdital == NO_BRASIL_URL
    && c.dataPublicacao == today
  }

  function NoBrasilRecord(organizacao: string, vagas: int, today: string): Concurso {
    Concurso(organizacao + " - Concurso Público", organizacao, vagas, None, "open",
             "concursosnobrasil", NO_BRASIL_URL, today)
  }

  /** The record (if any) one table row yields: rows need at least two cells, a
      non-empty organisation in the first and a positive count in the second. */
  function RowRecords(cells: Cells, today: string): (r: seq<Concurso>)
    ensures |r| <= 1
  {
    if |cells| >= 2 then
      var organizacao := Strip(cells[0]);
      var vagas := ExtrairNumero(Strip(cells[1]));
      if organizacao != "" && vagas > 0 then [NoBrasilRecord(organizacao, vagas, today)] else []
    else []
  }

  /** A row is kept exactly when it has at least two cells, a non-empty organisation
      and a positive count. */
  lemma RowRecordsKept(cells: Cells, today: string)
    ensures RowRecords(cells, today) != [] <==>
            |cells| >= 2 && Strip(cells[0]) != "" && ExtrairNumero(Strip(cells[1])) > 0
  {
  }

  lemma RowRecordsShape(cells: Cells, today: string)
    ensures forall c :: c in RowRecords(cells, today) ==> NoBrasilShape(c, today)
  {
    RowRecordsKept(cells, today);
    if RowRecords(cells, today) != [] {
      var vagas := ExtrairNumero(Strip(cells[1]));
      RowRecordsOne(cells, today);
      NoBrasilRecordShape(cells[0], vagas, today);
      SingletonShape(RowRecords(cells, today), NoBrasilRecord(Strip(cells[0]), vagas, today), today);
    }
  }

  lemma SingletonShape(r: seq<Concurso>, c: Concurso, today: string)
    requires r == [c] && NoBrasilShape(c, today)
    ensures forall x :: x in r ==> NoBrasilShape(x, today)
  {
  }

  lemma RowRecordsOne(cells: Cells, today: string)
    requires |cells| >= 2 && Strip(cells[0]) != "" && ExtrairNumero(Strip(cells[1])) > 0
    ensures RowRecords(cells, today) == [NoBrasilRecord(Strip(cells[0]), ExtrairNumero(Strip(cells[1])), today)]
  {
  }

  lemma NoBrasilRecordShape(cell: string, vagas: int, today: string)
    requires Strip(cell) != "" && vagas > 0
    ensures NoBrasilShape(NoBrasilRecord(Strip(cell), vagas, today), today)
  {
  }

  function RowsRecords(rows: seq<Cells>, today: string): (r: seq<Concurso>)
    ensures |r| <= |rows|
  {
    if rows == [] then []
    else RowsRecords(rows[..|rows| - 1], today) + RowRecords(rows[|rows| - 1], today)
  }

  /** All records of all tables, each table's header row skipped. */
  function TablesRecords(tables: seq<Table>, today: string): seq<Concurso> {
    if tables == [] then []
    else TablesRecords(tables[..|tables| - 1], today) + RowsRecords(Tail(tables[|tables| - 1]), today)
  }

  lemma {:induction false} RowsRecordsShape(rows: seq<Cells>, today: string)
    ensures forall c :: c in RowsRecords(rows, today) ==> NoBrasilShape(c, today)
  {
    if rows != [] {
      RowsRecordsShape(rows[..|rows| - 1], today);
      RowRecordsShape(rows[|rows| - 1], today);
    }
  }

  /** Every record of concursosnobrasil has its shape. */
  lemma {:induction false} TablesRecordsShape(tables: seq<Table>, today: string)
    ensures forall c :: c in TablesRecords(tables, today) ==> NoBrasilShape(c, today)
  {
    if tables != [] {
      TablesRecordsShape(tables[..|tables| - 1], today);
      RowsRecordsShape(Tail(tables[|tables| - 1]), today);
    }
  }

  /** The header rows never matter: tables that differ only in their first
      rows yield the same records. */
  lemma {:induction false} TablesRecordsIgnoreHeaders(a: seq<Table>, b: seq<Table>, today: string)
    requires |a| == |b|
    requires forall k :: 0 <= k < |a| ==> Tail(a[k]) == Tail(b[k])
    ensures TablesRecords(a, today) == TablesRecords(b, today)
  {
    if a != [] {
      TablesRecordsIgnoreHeaders(a[..|a| - 1], b[..|b| - 1], today);
    }
  }

  function NoBrasilOutput(fetched: Option<Page>, today: string): (r: seq<Concurso>)
    ensures |r| <= NO_BRASIL_LIMIT
    ensures forall c :: c in r ==> NoBrasilShape(c, today)
  {
    match fetched
    case None => []
    case Some(page) =>
      var all := TablesRecords(page.tables, today);
      TablesRecordsShape(page.tables, today);
      assert forall c :: c in all[..Min(NO_BRASIL_LIMIT, |all|)] ==> c in all;
      all[..Min(NO_BRASIL_LIMIT, |all|)]
  }

  /** The inner loop of `ConcursosNoBrasilScraper.scrape`: the records of
      the rows of one table. */
  method ScrapeNoBrasilRows(rows: seq<Cells>, today: string) returns (found: seq<Concurso>)
    ensures found == RowsRecords(rows, today)
  {
    found := [];
    for k := 0 to |rows|
      invariant found == RowsRecords(rows[..k], today)
    {
      var cols := rows[k];
      if |cols| >= 2 {
        var organizacao := Strip(cols[0]);
        var vagas := ExtrairNumero(Strip(cols[1]));
        if organizacao != "" && vagas > 0 {
          found := found + [NoBrasilRecord(organizacao, vagas, today)];
        }
      }
      RowsRecordsSnoc(rows, k, today);
    }
    assert rows[..|rows|] == rows;
  }

  lemma RowsRecordsSnoc(rows: seq<Cells>, k: nat, today: string)
    requires k < |rows|
    ensures RowsRecords(rows[..k + 1], today) == RowsRecords(rows[..k], today) + RowRecords(rows[k], today)
  {
    assert rows[..k + 1][..k] == rows[..k];
  }

  lemma TablesRecordsSnoc(tables: seq<Table>, t: nat, today: string)
    requires t < |tables|
    ensures TablesRecords(tables[..t + 1], today)
         == TablesRecords(tables[..t], today) + RowsRecords(Tail(tables[t]), today)
  {
    assert tables[..t + 1][..t] == tables[..t];
  }

  /** `ConcursosNoBrasilScraper.scrape`: every table's rows after the header,
      at most 50 records in all. */
  method ScrapeNoBrasil(fetched: Option<Page>, today: string) returns (concursos: seq<Concurso>)
    ensures concursos == NoBrasilOutput(fetched, today)
  {
    concursos := [];
    if fetched.None? {
      return;
    }
    var tables := fetched.value.tables;
    for t := 0 to |tables|
      invariant concursos == TablesRecords(tables[..t], today)
    {
      var found := ScrapeNoBrasilRows(Tail(tables[t]), today);
      concursos := concursos + found;
      TablesRecordsSnoc(tables, t, today);
    }
    assert tables[..|tables|] == tables;
    concursos := concursos[..Min(NO_BRASIL_LIMIT, |concursos|)];
  }

  // ---------------------------------------------------------------------
  // The scraper list
  // ---------------------------------------------------------------------

  datatype Scraper = NoBrasil | Template(site: Site)

  /** `ScraperManager.scrapers`, in its order. */
  const SCRAPERS: seq<Scraper> := [
    NoBrasil, Template(QCONCURSOS), Template(ACHE_CONCURSOS), Template(CONCURSOS_COM_BR),
    Template(JC_CONCURSOS), Template(VUNESP), Template(CENTRAL_DE_CONCURSOS),
    Template(PIC_APROVA), Template(GLOBAL_CONCURSOS), Template(SA_CONCURSOS),
    Template(CEBRASPE), Template(FGV), Template(NOVA_CONCURSOS), Template(APROVA_CONCURSOS),
    Template(CASA_DO_CONCURSEIRO), Template(DIRECAO_CONCURSOS), Template(EDITAL_CONCURSOS_BRASIL)]

  function Output(s: Scraper, fetched: Option<Page>, today: string): seq<Concurso> {
    match s
    case NoBrasil => NoBrasilOutput(fetched, today)
    case Template(site) => TemplateOutput(site, fetched, today)
  }

  /** `scraper_class.scrape()`. */
  method Scrape(s: Scraper, fetched: Option<Page>, today: string) returns (concursos: seq<Concurso>)
    ensures concursos == Output(s, fetched, today)
  {
    match s
    case NoBrasil => concursos := ScrapeNoBrasil(fetched, today);
    case Template(site) => concursos := ScrapeTemplate(site, fetched, today);
  }

  /** No scraper of the list ever emits a record without a positive count:
      concursosnobrasil drops such rows, qconcursos, acheconcursos,
      jcconcursos and vunesp fall back to 5, 3, 8 and 15, and the others use
      fixed positive counts. */
  lemma {:induction false} ScrapersEmitPositiveVagas(i: nat, fetched: Option<Page>, today: string)
    requires i < |SCRAPERS|
    ensures forall c :: c in Output(SCRAPERS[i], fetched, today) ==> c.vagas > 0
  {
    match SCRAPERS[i]
    case NoBrasil =>
      assert forall c :: c in NoBrasilOutput(fetched, today) ==> NoBrasilShape(c, today);
    case Template(site) =>
      assert PositiveCounts(site);
      assert forall c :: c in TemplateOutput(site, fetched, today) ==> TemplateShape(site, c, today);
  }
}
