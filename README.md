# finderconcurso — a verified model of the scraping and bookkeeping core

finderconcurso collects Brazilian public-service openings ("concursos") from
seventeen web sites, stores them in SQLite and serves them over a small HTTP
API. This project models the parts of it that shape and count records.
Fetching and HTML parsing are not modelled.

- **Number extraction** (`Scraper.extrair_numero`). Every `.` and `,` is
  deleted, and the result is the value of the first run of ASCII digits, or 0
  when there is none. A run longer than Python's 4300-digit conversion limit
  makes `int()` raise, and the exception handler also answers 0.
- **The site scrapers**. Sixteen of the `scrape()` methods share one template,
  and each is described by a `Site` constant. The constant records:
  - the cap on the elements read;
  - where the title comes from;
  - a title suffix;
  - how `organizacao` is derived;
  - how `vagas` is derived and its fallback;
  - the fixed `fonte`, URL and `banca`.

  `ConcursosNoBrasilScraper` is table-driven and is modelled separately. It
  skips header rows, keeps rows with at least two cells, a non-empty organisation and
  a positive count, and keeps at most 50 records. A fetched page is reduced to
  what the scrapers read from it (`Scrapers.Page`). A failed fetch is `None`.
- **The manager** (`ScraperManager.scrape_all`). It runs the seventeen
  scrapers in list order; a scraper that raises contributes nothing. It
  concatenates the records and counts them. Then it keeps the first record
  for each key `titulo + "_" + organizacao`.
- **The database layer**. This covers the SELECT text and parameter list that
  `obter_concursos` builds from its filters, and the 12-value tuple that
  `inserir_concurso` binds.
- **The web handlers**. This covers:
  - the filter cleaning of `/api/concursos`;
  - the filters of `/api/busca`;
  - the lookup by id of `/api/concursos/<id>`;
  - the statistics tally of `/api/estatisticas`.

  Their input is the list of rows the database returns.

The sixteen `Site` constants cover the template scrapers at
scrapers.py:75-623.

Code in the source that updates variables step by step is a Dafny method:
- each site's `scrape()` loop;
- the two loops of `scrape_all`;
- the query builder of `obter_concursos`, which has no loop but extends
  `query` and `params` one filter at a time;
- the lookup loop of `/api/concursos/<id>`;
- the tally loop of `/api/estatisticas`.

Each of these methods is proved equal to a specification function, and the
properties are proved about those functions: bounds, record shapes,
de-duplication invariants, placeholder counts and the statistics sums. The
filters of `/api/busca` (`App.BuscaAvancada`) are built without a loop; that
method's contract lists the dictionary's entries directly.

The de-duplication key follows the code: it is title and organisation joined
by `_`. The source site is not part of it. Two records merge exactly when
their keys agree, and the first one is kept
(`ScraperManager.SameKeyKeepsFirst`). Most sites fix `organizacao` to their
own name, and VUNESP, Cebraspe and FGV also add a suffix to the title. So an
opening listed on two fixed-organisation sites gets two keys, and both
records survive (`ScraperManager.SameTitleOtherOrganisationKept`).

The four sites that take the organisation from the title (qconcursos,
acheconcursos, concursos.com.br, jcconcursos) use `titulo.split('-')[0].strip()`.
Such a record merges with a record of a fixed-organisation site when two
things hold (`ScraperManager.FixedNameTitleMerges`):
- its title is the other record's title, that site's suffix included;
- the part of the title before the first hyphen, stripped, is that site's
  organisation name.

Some instances:
- qconcursos and picaprova elements both titled "PIC Aprova"
  (`ScraperManager.QConcursosMergesWithPicAprova`);
- qconcursos and picaprova elements both titled "PIC Aprova -" followed by
  any text, such as "PIC Aprova - Edital 2024"
  (`ScraperManager.QConcursosMergesWithPicAprovaEdital`);
- a qconcursos element titled "VUNESP - Edital 5 - VUNESP" and a vunesp
  element titled "VUNESP - Edital 5", which the vunesp scraper turns into
  the same title (`ScraperManager.QConcursosMergesWithVunesp`).

Two title-derived records merge whenever their titles agree. A
concursosnobrasil record `X - Concurso Público` has organisation `X`, so it
merges with a record of the same title from any site whose organisation
comes out as `X`. Two different openings can also collide on the key
(`ScraperManager.KeyCollision`).

Rows read back with `SELECT *` carry every column, so the `.get` defaults of
`obter_estatisticas` (`'BR'`, `'unknown'`, `0`) apply only to rows without that
key. A NULL column is still present as Python's None. It is then counted under
None, or, for `vagas`, it makes the sum raise TypeError.

## Model

| member | source | states |
|---|---|---|
| Text.Strip | scrapers.py:92 | `str.strip()`: the result has no whitespace (Python's `isspace` set) at either end, and it is `s` at some offset with only whitespace around it |
| Text.StripStripped | scrapers.py:92 | stripping text that is already stripped returns it unchanged |
| Text.StripOmits | scrapers.py:98 | stripping never introduces a character: a character absent from the input is absent from the output |
| Text.BeforeDash | scrapers.py:98 | `split('-')[0]` is a prefix of the input with no hyphen; when it is shorter than the input, a hyphen follows it |
| Text.BeforeDashNoDash | scrapers.py:98 | text without a hyphen is its own `split('-')[0]` |
| Text.BeforeDashAt | scrapers.py:98 | `split('-')[0]` of `a + "-" + b`, with no hyphen in `a`, is `a` |
| Text.RemoveSeparators | scrapers.py:14 | deleting `.` and `,` keeps exactly the characters of the input that are not separators, and never lengthens it |
| Text.RemoveSeparatorsAppend | scrapers.py:14 | separator removal distributes over concatenation |
| Text.RemoveSeparatorsNone | scrapers.py:14 | text without separators is unchanged |
| Text.FirstDigitFrom | scrapers.py:14 | where `\d+` starts: no digit before the index, and a digit at it unless it is the end |
| Text.DigitRunEnd | scrapers.py:14 | where the `\d+` match ends: digits up to the index, and a non-digit or the end at it |
| Scrapers.ExtrairNumero | scrapers.py:11-17 | the result is a natural number, and it is 0 when the text has no digit |
| Scrapers.ExtrairNumeroFirstRun | scrapers.py:14-17 | for any split of the cleaned text into a digit-free prefix, a maximal digit run and the rest, the result is the run's value, or 0 when the run exceeds 4300 digits |
| Scrapers.ExtrairNumeroAllDigits | scrapers.py:14-15 | a string of digits (at most 4300) gives its own decimal value |
| Scrapers.ExtrairNumeroTooLong | scrapers.py:15-17 | a run of more than 4300 digits makes `int()` raise, and the handler gives 0 |
| Scrapers.ExtrairNumeroLeadingRun | scrapers.py:14-15 | a cleaned text that opens with a maximal run of digits gives that run's value |
| Scrapers.ExtrairNumeroSeparated | scrapers.py:14 | a `.` or `,` between two digit runs is deleted first, so "1.234" reads 1234 and "1,5" reads 15 |
| Scrapers.ItemTitle | scrapers.py:90-92 | Definition: the stripped text of the element's title child, None when it has none; for concursos.com.br the element's own text, kept only when longer than 5 (scrapers.py:160-162) |
| Scrapers.Organizacao | scrapers.py:98 | Definition: `titulo.split('-')[0].strip()` for the title-derived sites, the site's fixed name otherwise |
| Scrapers.Vagas | scrapers.py:93-99 | Definition: the number read from the `span.vagas` child (qconcursos) or from the element's text, replaced by the fallback unless positive, or the site's fixed count |
| Scrapers.MakeConcurso | scrapers.py:96-104 | Definition: the dictionary appended for a titled element: the title with the suffix, the organisation and count rules, the fixed fields and the date |
| Scrapers.ItemRecords | scrapers.py:89-104 | one element yields at most one record |
| Scrapers.ItemRecordsShape | scrapers.py:89-104 | every record built from an element has the site's shape: fixed status/fonte/link/banca, the date given, the title suffix, the concursos.com.br length bound, the organisation rule and a positive count |
| Scrapers.MakeConcursoShape | scrapers.py:96-104 | the record appended for a titled element has the site's shape |
| Scrapers.OrganizacaoFromTitle | scrapers.py:98 | `titulo.split('-')[0].strip()` contains no hyphen and has no surrounding whitespace |
| Scrapers.VagasPositive | scrapers.py:99 | with a positive fallback, `vagas if vagas > 0 else fallback` is positive |
| Scrapers.TemplateRecords | scrapers.py:89-104 | a site never builds more records than the elements it reads |
| Scrapers.TemplateRecordsShape | scrapers.py:89-104 | every record a template site builds has the site's shape |
| Scrapers.TemplateRecordsAppend | scrapers.py:89-104 | records follow element order: the records of a concatenation of elements are the records of each part, in turn |
| Scrapers.TemplateRecordsOne | scrapers.py:90-92 | one element yields exactly one record when the site finds a title in it, and none otherwise |
| Scrapers.TemplateOutput | scrapers.py:79-109 | a failed fetch yields nothing; otherwise at most `min(cap, number of elements)` records, all of the site's shape |
| Scrapers.ScrapeTemplate | scrapers.py:79-109 | the template `scrape()` loop returns exactly `TemplateOutput` for the site and fetch result |
| Scrapers.NoBrasilRecord | scrapers.py:60-68 | Definition: the concursosnobrasil record `organizacao + " - Concurso Público"` with the row's organisation and count, status `open`, its fonte, URL and the date |
| Scrapers.RowRecords | scrapers.py:54-68 | one table row yields at most one record |
| Scrapers.RowRecordsKept | scrapers.py:55-59 | a row yields a record exactly when it has at least two cells, a non-empty stripped organisation and a positive count |
| Scrapers.RowRecordsShape | scrapers.py:55-68 | a row's record has a non-empty stripped organisation, the title `organizacao + " - Concurso Público"`, a positive count and the site's fixed fields |
| Scrapers.NoBrasilRecordShape | scrapers.py:60-68 | the record built from a non-empty organisation and a positive count has the concursosnobrasil shape |
| Scrapers.RowsRecords | scrapers.py:53-68 | a table never yields more records than rows |
| Scrapers.RowsRecordsShape | scrapers.py:53-68 | every record of a table's rows has the concursosnobrasil shape |
| Scrapers.TablesRecords | scrapers.py:50-53 | Definition: the records of every table in order, each table's first row skipped |
| Scrapers.TablesRecordsShape | scrapers.py:50-68 | every record of every table has the concursosnobrasil shape |
| Scrapers.TablesRecordsIgnoreHeaders | scrapers.py:52 | the first row of each table is skipped: tables that differ only in their header rows give the same records |
| Scrapers.NoBrasilOutput | scrapers.py:41-73 | at most 50 records, each of the concursosnobrasil shape |
| Scrapers.ScrapeNoBrasilRows | scrapers.py:53-68 | the row loop returns exactly the records of the rows, in order |
| Scrapers.ScrapeNoBrasil | scrapers.py:41-73 | `ConcursosNoBrasilScraper.scrape` returns exactly `NoBrasilOutput`, the first 50 records of all tables with headers skipped |
| Scrapers.Scrape | scrapers.py:665 | calling a scraper returns exactly its site's output for the fetch result |
| Scrapers.ScrapersEmitPositiveVagas | scrapers.py:632-650 | no scraper of the list ever emits a record whose `vagas` is not positive (the fallbacks 5, 3, 8, 15 and the fixed counts are all positive) |
| ScraperManager.Key | scrapers.py:676 | Definition: the key `f"{titulo}_{organizacao}"` |
| ScraperManager.Dedup | scrapers.py:672-679 | Definition: the records whose key no earlier record has, in input order |
| ScraperManager.DedupKeys | scrapers.py:672-679 | no key is lost: the output's keys are exactly the input's keys |
| ScraperManager.DedupDistinct | scrapers.py:672-679 | no two output records share the key `titulo + "_" + organizacao` |
| ScraperManager.DedupSubsequence | scrapers.py:672-679 | the output is a subsequence of the input: order is kept and nothing is invented |
| ScraperManager.DedupMembers | scrapers.py:672-679 | every output record is an input record |
| ScraperManager.DedupKeepsFirst | scrapers.py:675-679 | the first occurrence of each key is kept |
| ScraperManager.DedupSize | scrapers.py:672-679 | the output has one record per distinct key |
| ScraperManager.DedupDistinctUnchanged | scrapers.py:672-679 | an input whose keys are all different is returned unchanged |
| ScraperManager.DedupIdempotent | scrapers.py:672-679 | de-duplicating a de-duplicated list changes nothing |
| ScraperManager.SameKeyKeepsFirst | scrapers.py:676-679 | of two records with the same key, only the first survives, whichever sites they came from |
| ScraperManager.SameTitleOtherOrganisationKept | scrapers.py:676-679 | the same title under two different organisations gives two different keys, and both records survive |
| ScraperManager.FixedNameTitleMerges | scrapers.py:675-679 | a record of a title-derived site without a suffix and one of a fixed-organisation site share a key, and only the first is kept, whenever the first title is the second with the site's suffix appended and its `split('-')[0].strip()` is the site's name |
| ScraperManager.QConcursosMergesWithPicAprova | scrapers.py:675-679 | a qconcursos element and a picaprova element, both titled "PIC Aprova", de-duplicate to the qconcursos record |
| ScraperManager.QConcursosMergesWithPicAprovaEdital | scrapers.py:675-679 | the same for any two titles "PIC Aprova -" followed by the same text |
| ScraperManager.QConcursosMergesWithVunesp | scrapers.py:675-679 | a qconcursos title "VUNESP -<rest> - VUNESP" and a vunesp element titled "VUNESP -<rest>" de-duplicate to the qconcursos record |
| ScraperManager.KeyCollision | scrapers.py:676 | the key does not separate its parts: ("a_b", "c") and ("a", "b_c") collide, and the second is dropped |
| ScraperManager.Collected | scrapers.py:662-667 | Definition: `todos_concursos` after the first runs: each scraper's output extended in list order, nothing for a scraper that raised |
| ScraperManager.AllRaisedEmpty | scrapers.py:662-669 | scrapers that raise contribute nothing; when all raise, nothing is collected |
| ScraperManager.CollectedPositiveVagas | scrapers.py:662-669 | every record collected from the scraper list has a positive `vagas` |
| ScraperManager.CollectAll | scrapers.py:662-669 | the first loop concatenates the scrapers' outputs in list order, a raising scraper adding nothing, and `total_inicial` is the length of the concatenation |
| ScraperManager.KeepFirstPerKey | scrapers.py:672-679 | the seen-set loop returns exactly `Dedup` of its input |
| ScraperManager.ScrapeAll | scrapers.py:653-688 | `scrape_all` returns `Dedup` of the concatenation of the seventeen scrapers' outputs, and its raw count is the concatenation's length |
| Database.Step | database.py:96-111 | Definition: one `if filtros.get(key):` block: the clause and its values appended when the filter is set, nothing otherwise |
| Database.Select | database.py:92-113 | Definition: the base query, the four steps in order estado, status, fonte, busca (only when the dictionary is non-empty), then the ordering and limit |
| Database.Clause | database.py:96-111 | an equality filter binds one value; `busca` binds three |
| Database.BuildSelect | database.py:92-113 | the query and parameters built are exactly `Select(filtros)`: the base, then the set clauses in the order estado, status, fonte, busca, then the ordering and limit |
| Database.SelectWithoutFilters | database.py:92-113 | with no filter set, or no dictionary at all, the query is the base plus ` ORDER BY data_publicacao DESC LIMIT 1000` and nothing is bound |
| Database.SelectFrame | database.py:92-113 | every query starts with the base SELECT and ends with the ordering and limit |
| Database.ClausePlaceholders | database.py:96-111 | each clause has as many `?` as the values it binds |
| Database.BuscaPlaceholders | database.py:109 | the LIKE clause has exactly three placeholders |
| Database.SelectPlaceholders | database.py:92-113 | the built query has exactly as many `?` placeholders as parameters |
| Database.SelectBusca | database.py:108-111 | a set `busca` filter binds `"%" + termo + "%"` three times as the last parameters, and its clause is the last one before the ordering |
| Database.StepBindsValue | database.py:96-106 | a set equality filter appends its clause to the query and its value to the parameters; an unset one changes nothing |
| Database.SelectSqlIgnoresValues | database.py:95-113 | the SQL text depends only on which filters are set, never on their values |
| Database.SelectOnlyActive | database.py:95-111 | filter dictionaries that agree on which filters are set, and on their values, give the same statement |
| Database.InsertParams | database.py:64-77 | the tuple has 12 entries in column order, each the row's value for that column or its default |
| Database.InsertDefaults | database.py:69-73 | the default is 0 for `vagas`, `'open'` for `status`, and None for every other column |
| App.RequestFilters | app.py:67-72 | Definition: the four filter keys bound to `request.args.get`, None when absent |
| App.CleanFilters | app.py:75 | an entry is kept exactly when its value is truthy, and its value is unchanged |
| App.CleanFiltersIdempotent | app.py:75 | cleaning twice equals cleaning once |
| App.CleanFiltersSameSelect | app.py:75-77 | cleaning does not change the statement the database builds |
| App.ObterConcursosFiltrosContents | app.py:67-75 | the cleaned filters hold exactly the four filter arguments the request gives a non-empty value, bound to that value |
| App.BuscaAvancada | app.py:131-142 | `busca` is always present, bound to `termo` or `""`; `estado`, `status` and `fonte` are present exactly when truthy, with their argument's value |
| App.BuscaAvancadaTermo | app.py:136-144 | the advanced search always reaches the filtering branch of the query; it adds the LIKE clause exactly when `termo` is non-empty |
| App.Find | app.py:90-97 | Definition: the first row whose `id` is the one requested, a KeyError when a row without `id` comes first, not found otherwise |
| App.ObterConcurso | app.py:88-97 | the search loop returns exactly `Find`: the first row with the id, a KeyError from an earlier row without `id`, or not found |
| App.FindFirst | app.py:91-94 | when the first matching row is at `i` and every earlier row has a different id, that row is returned |
| App.FindNotFound | app.py:96-97 | not found exactly when every row has an id and none is the one requested |
| App.FindSound | app.py:91-99 | a returned row is one of the rows and carries the requested id |
| App.Bump | app.py:112 | Definition: `d[v] = d.get(v, 0) + 1` |
| App.Tally | app.py:110-115 | Definition: the counts per value of `row.get(key, default)`, built row by row |
| App.SumVagas | app.py:117 | Definition: the running `total_vagas`, TypeError once a non-int value is added |
| App.Estatisticas | app.py:119-124 | Definition: the row count, the vagas total, the number of distinct states and the two tallies, or the error of the sum |
| App.ObterEstatisticas | app.py:106-126 | the tally loop returns exactly `Estatisticas` of the rows, or TypeError from the first non-int `vagas` |
| App.SumVagasStops | app.py:117 | once `total_vagas +=` has raised, the whole handler raises |
| App.SumVagasFails | app.py:117 | the sum fails, always with TypeError, exactly when some row's `vagas` is present and not an int |
| App.SumVagasAppend | app.py:108-117 | the vagas total is additive over the rows |
| App.TallyCounts | app.py:110-115 | the tally has one entry per distinct value, and each entry is the number of rows carrying that value |
| App.EstatisticasEstados | app.py:120-122 | `total_estados` is the number of distinct `estado` values, and `total_concursos` is the number of rows |
| App.BumpSum | app.py:112 | `d[v] = d.get(v, 0) + 1` raises the sum of the counts by one |
| App.TallySum | app.py:110-115 | the counts of a tally add up to the number of rows |
| App.EstatisticasSums | app.py:119-124 | the per-state and the per-source counts each add up to `total_concursos` |
| App.ToRow | scrapers.py:96-104 | Definition: the dictionary a scraper appends for a record, with `banca` only where the site sets it |
| App.ScrapedInsertParams | database.py:64-77 | for a scraped record, the insert tuple is its fields in column order, with None for estado, escolaridade, salario and descricao, and for a missing `banca` |

## Left out

- Fetching (`Scraper.fazer_requisicao`, `requests.get`) and BeautifulSoup. A fetch result is a parameter, `Option<Page>`. A page is the cell texts of its tables and, for each element its `find_all` selector returns, the texts the scraper reads from it. The CSS selectors and tag lists themselves are not modelled.
- `datetime.now()`: the scrape date `data_publicacao` is a parameter, one date for the whole run; the source reads the clock once per record, so a run that crosses midnight mixes two dates. The response timestamps of the handlers are dropped.
- All `print` logging.
- Scrapers.ExtrairNumero: treats only ASCII `0`-`9` as digits, while Python's `\d` and `int()` also accept other Unicode decimal digits. The 4300-digit limit is that of Python 3.11 and of the 3.7.14, 3.8.14, 3.9.14 and 3.10.7 security releases; earlier interpreters convert any length.
- The `except` branches inside each `scrape()`. On a parsed page nothing in those `try` blocks raises, because `extrair_numero` catches its own errors. A `scrape()` that raises as a whole is modelled as `ScraperManager.Run.Raised`.
- ScraperManager.ScrapeAll: the printed summary (raw total, unique count, timestamp) is not modelled. The raw count is returned as a second result instead.
- The loop of `ScraperManager.scrape_all` is split into two methods, `CollectAll` over a given scraper list and `KeepFirstPerKey`. `ConcursosNoBrasilScraper.scrape` keeps its inner row loop in `ScrapeNoBrasilRows`.
- SQLite itself: connections, `init_db`, `INSERT OR REPLACE` and its UNIQUE constraint, executing the query, ordering, LIMIT, `contar_concursos`, `limpar_concursos` and `registrar_atualizacao`. The rows a handler reads are an input.
- Database.InsertParams: covers the parameter tuple only. The INSERT text and its twelve placeholders are not modelled.
- `vagas` values that are floats: a row value is None, an int or a string.
- Flask routing, `jsonify`, HTTP status codes, CORS, the static and error handlers, `atualizar_manual`, `atualizar_concursos`, the background scheduler and `config.py`.
