/** The request handlers of the web application, reduced to what they
    compute: the filters handed to `Database.obter_concursos`, the lookup
    of one record by id, and the statistics tally. The rows they work on
    are what the database returns, given as input. */
module App {
  import opened Common
  import opened Database
  import Scrapers

  /** The query string of a request: `request.args`. */
  type Args = map<string, string>

  /** `request.args.get(key)`. */
  function Arg(args: Args, key: string): Option<string> {
    if key in args then Some(args[key]) else None
  }

  // ---------------------------------------------------------------------
  // obter_concursos
  // ---------------------------------------------------------------------

  /** The dictionary `obter_concursos` reads from the request, before
      cleaning: every filter key, with None for an absent argument. */
  function RequestFilters(args: Args): Filters {
    map["estado" := Arg(args, "estado"), "status" := Arg(args, "status"),
        "fonte" := Arg(args, "fonte"), "busca" := Arg(args, "busca")]
  }

  /** `{k: v for k, v in filtros.items() if v}`: the entries whose value is
      truthy, with their values unchanged. */
  function CleanFilters(f: Filters): (r: Filters)
    ensures forall k :: k in r <==> k in f && Truthy(f[k])
    ensures forall k :: k in r ==> r[k] == f[k]
  {
    map k | k in f && Truthy(f[k]) :: f[k]
  }

  /** Cleaning a cleaned dictionary changes nothing. */
  lemma CleanFiltersIdempotent(f: Filters)
    ensures CleanFilters(CleanFilters(f)) == CleanFilters(f)
  {
    var r := CleanFilters(f);
    assert forall k :: k in r ==> Truthy(r[k]);
  }

  /** Cleaning does not change the query: the database switches a clause
      on only for a truthy value, which cleaning keeps. */
  lemma CleanFiltersSameSelect(f: Filters)
    ensures Select(Some(CleanFilters(f))) == Select(Some(f))
  {
    var a, b := Some(CleanFilters(f)), Some(f);
    forall k
      ensures ActiveIn(a, k) <==> ActiveIn(b, k)
      ensures ActiveIn(a, k) && ActiveIn(b, k) ==> Lookup(a.value, Name(k)) == Lookup(b.value, Name(k))
    {
      if ActiveIn(b, k) {
        assert Name(k) in a.value;
      }
    }
    SelectOnlyActive(a, b);
  }

  /** The filters `obter_concursos` passes to the database. */
  function ObterConcursosFiltros(args: Args): Filters {
    CleanFilters(RequestFilters(args))
  }

  /** They hold exactly the filter arguments the request gives a non-empty
      value, bound to that value. */
  lemma ObterConcursosFiltrosContents(args: Args, k: string)
    ensures var f := ObterConcursosFiltros(args);
            && (k in f <==> (k == "estado" || k == "status" || k == "fonte" || k == "busca") && k in args && args[k] != "")
            && (k in f ==> f[k] == Some(args[k]))
  {
  }

  // ---------------------------------------------------------------------
  // busca_avancada
  // ---------------------------------------------------------------------

  /** The filters `busca_avancada` builds: `busca` always, bound to the
      `termo` argument or `""`; `estado`, `status` and `fonte` only when
      their argument is truthy. */
  method BuscaAvancada(args: Args) returns (filtros: Filters)
    ensures "busca" in filtros && filtros["busca"] == Some(if "termo" in args then args["termo"] else "")
    ensures forall k :: k in filtros <==>
      k == "busca" || ((k == "estado" || k == "status" || k == "fonte") && Truthy(Arg(args, k)))
    ensures forall k :: k in filtros && k != "busca" ==> filtros[k] == Arg(args, k)
  {
    var termo := if "termo" in args then args["termo"] else "";
    var estado := Arg(args, "estado");
    var status := Arg(args, "status");
    var fonte := Arg(args, "fonte");

    filtros := map["busca" := Some(termo)];
    if Truthy(estado) {
      filtros := filtros["estado" := estado];
    }
    if Truthy(status) {
      filtros := filtros["status" := status];
    }
    if Truthy(fonte) {
      filtros := filtros["fonte" := fonte];
    }
  }

  /** The advanced search always reaches the filtering branch of the query,
      but an empty `termo` adds no LIKE clause: the search then returns
      what the other filters select. */
  lemma BuscaAvancadaTermo(args: Args, filtros: Filters)
    requires "busca" in filtros && filtros["busca"] == Some(if "termo" in args then args["termo"] else "")
    ensures HasFilters(Some(filtros))
    ensures ActiveIn(Some(filtros), Busca) <==> "termo" in args && args["termo"] != ""
  {
    assert Name(Busca) == "busca";
  }

  // ---------------------------------------------------------------------
  // obter_concurso
  // ---------------------------------------------------------------------

  /** Whether row `c` is the one asked for: `c['id'] == concurso_id`. */
  predicate HasId(c: Row, id: int)
    requires "id" in c
  {
    c["id"] == Int(id)
  }

  /** The outcome of the search in `obter_concurso`: the first row whose
      id matches, a KeyError from the first row without an id met before
      it, or not found. */
  function Find(cs: seq<Row>, id: int): Result<Row> {
    if cs == [] then Err(NotFound)
    else if "id" !in cs[0] then Err(KeyError("id"))
    else if HasId(cs[0], id) then Ok(cs[0])
    else Find(cs[1..], id)
  }

  /** The search loop of `obter_concurso`, with its `break`. A matched row
      has an `id` entry, so it is never the empty (falsy) dictionary and
      `if not concurso` only sees the case where nothing matched. */
  method ObterConcurso(cs: seq<Row>, id: int) returns (r: Result<Row>)
    ensures r == Find(cs, id)
  {
    var concurso: Option<Row> := None;
    var i := 0;
    while i < |cs|
      invariant 0 <= i <= |cs|
      invariant concurso.None? && Find(cs, id) == Find(cs[i..], id)
    {
      var c := cs[i];
      assert cs[i..][1..] == cs[i + 1..];
      if "id" !in c {
        return Err(KeyError("id"));
      }
      if c["id"] == Int(id) {
        concurso := Some(c);
        break;
      }
      i := i + 1;
    }
    if concurso.None? {
      return Err(NotFound);
    }
    return Ok(concurso.value);
  }

  /** The row found is the first one with the requested id. */
  lemma {:induction false} FindFirst(cs: seq<Row>, id: int, i: nat)
    requires i < |cs| && "id" in cs[i] && HasId(cs[i], id)
    requires forall k :: 0 <= k < i ==> "id" in cs[k] && !HasId(cs[k], id)
    ensures Find(cs, id) == Ok(cs[i])
  {
    if i > 0 {
      FindFirst(cs[1..], id, i - 1);
    }
  }

  /** Not found exactly when every row has an id and none is the one asked for. */
  lemma {:induction false} FindNotFound(cs: seq<Row>, id: int)
    ensures Find(cs, id) == Err(NotFound) <==> forall k :: 0 <= k < |cs| ==> "id" in cs[k] && !HasId(cs[k], id)
  {
    if cs != [] {
      FindNotFound(cs[1..], id);
      assert forall k :: 1 <= k < |cs| ==> cs[k] == cs[1..][k - 1];
    }
  }

  /** A record that is returned comes from the rows and has the requested id. */
  lemma {:induction false} FindSound(cs: seq<Row>, id: int)
    requires Find(cs, id).Ok?
    ensures Find(cs, id).value in cs
    ensures "id" in Find(cs, id).value && HasId(Find(cs, id).value, id)
  {
    if "id" in cs[0] && !HasId(cs[0], id) {
      FindSound(cs[1..], id);
    }
  }

  // ---------------------------------------------------------------------
  // obter_estatisticas
  // ---------------------------------------------------------------------

  /** The statistics `obter_estatisticas` reports (its timestamp aside). */
  datatype Stats = Stats(
    totalConcursos: nat,
    totalVagas: int,
    totalEstados: nat,
    estados: map<Value, nat>,
    fontes: map<Value, nat>)

  /** `d.get(v, 0) + 1` stored back under `v`. */
  function Bump(m: map<Value, nat>, v: Value): map<Value, nat> {
    m[v := (if v in m then m[v] else 0) + 1]
  }

  /** The counts per value of `row.get(key, default)`, built as the loop
      builds them. */
  function Tally(cs: seq<Row>, key: string, default: Value): map<Value, nat> {
    if cs == [] then map[]
    else Bump(Tally(cs[..|cs| - 1], key, default), Get(cs[|cs| - 1], key, default))
  }

  /** `total_vagas` after adding every row's `vagas` (0 when absent); adding
      anything but an int to an int raises TypeError. */
  function SumVagas(cs: seq<Row>): Result<int> {
    if cs == [] then Ok(0)
    else
      match SumVagas(cs[..|cs| - 1])
      case Err(e) => Err(e)
      case Ok(total) =>
        match Get(cs[|cs| - 1], "vagas", Int(0))
        case Int(v) => Ok(total + v)
        case _ => Err(TypeError)
  }

  const ESTADO_DEFAULT := Str("BR")
  const FONTE_DEFAULT := Str("unknown")

  /** The answer of `obter_estatisticas` for the given rows. */
  function Estatisticas(cs: seq<Row>): Result<Stats> {
    match SumVagas(cs)
    case Err(e) => Err(e)
    case Ok(total) =>
      var estados := Tally(cs, "estado", ESTADO_DEFAULT);
      Ok(Stats(|cs|, total, |estados|, estados, Tally(cs, "fonte", FONTE_DEFAULT)))
  }

  /** The tally loop of `obter_estatisticas`. */
  method ObterEstatisticas(cs: seq<Row>) returns (r: Result<Stats>)
    ensures r == Estatisticas(cs)
  {
    var estados: map<Value, nat> := map[];
    var fontes: map<Value, nat> := map[];
    var totalVagas := 0;
    for i := 0 to |cs|
      invariant estados == Tally(cs[..i], "estado", ESTADO_DEFAULT)
      invariant fontes == Tally(cs[..i], "fonte", FONTE_DEFAULT)
      invariant SumVagas(cs[..i]) == Ok(totalVagas)
    {
      var concurso := cs[i];
      assert cs[..i + 1][..i] == cs[..i];
      var estado := Get(concurso, "estado", ESTADO_DEFAULT);
      estados := Bump(estados, estado);

      var fonte := Get(concurso, "fonte", FONTE_DEFAULT);
      fontes := Bump(fontes, fonte);

      var vagas := Get(concurso, "vagas", Int(0));
      if !vagas.Int? {
        SumVagasStops(cs, i + 1);
        assert cs[..|cs|] == cs;
        return Err(TypeError);
      }
      totalVagas := totalVagas + vagas.i;
    }
    assert cs[..|cs|] == cs;
    var stats := Stats(|cs|, totalVagas, |estados|, estados, fontes);
    return Ok(stats);
  }

  /** Once the sum has failed it stays failed. */
  lemma {:induction false} SumVagasStops(cs: seq<Row>, i: nat)
    requires i <= |cs| && SumVagas(cs[..i]) == Err(TypeError)
    ensures SumVagas(cs) == Err(TypeError)
    decreases |cs| - i
  {
    if i < |cs| {
      assert cs[..i + 1][..i] == cs[..i];
      SumVagasStops(cs, i + 1);
    } else {
      assert cs[..i] == cs;
    }
  }

  /** The statistics fail exactly when some row's `vagas` is present and not
      an int (None included). */
  lemma {:induction false} SumVagasFails(cs: seq<Row>)
    ensures SumVagas(cs).Err? <==> exists k :: 0 <= k < |cs| && !Get(cs[k], "vagas", Int(0)).Int?
    ensures SumVagas(cs).Err? ==> SumVagas(cs) == Err(TypeError)
  {
    if cs != [] {
      var prefix := cs[..|cs| - 1];
      SumVagasFails(prefix);
      assert forall k :: 0 <= k < |prefix| ==> prefix[k] == cs[k];
    }
  }

  /** The total is additive over the rows. */
  lemma {:induction false} SumVagasAppend(a: seq<Row>, b: seq<Row>)
    requires SumVagas(a).Ok? && SumVagas(b).Ok?
    ensures SumVagas(a + b) == Ok(SumVagas(a).value + SumVagas(b).value)
  {
    if b == [] {
      assert a + b == a;
    } else {
      var bp := b[..|b| - 1];
      assert (a + b)[..|a + b| - 1] == a + bp;
      SumVagasAppend(a, bp);
    }
  }

  /** The values occurring under `key` (with its default). */
  function Values(cs: seq<Row>, key: string, default: Value): set<Value> {
    set c | c in cs :: Get(c, key, default)
  }

  /** How many rows carry value `v` under `key`. */
  function Count(cs: seq<Row>, key: string, default: Value, v: Value): nat {
    if cs == [] then 0
    else Count(cs[..|cs| - 1], key, default, v) + (if Get(cs[|cs| - 1], key, default) == v then 1 else 0)
  }

  /** The tally has one entry per value that occurs, and that entry is the
      number of rows carrying it. */
  lemma {:induction false} TallyCounts(cs: seq<Row>, key: string, default: Value)
    ensures Tally(cs, key, default).Keys == Values(cs, key, default)
    ensures forall v :: Count(cs, key, default, v) == if v in Tally(cs, key, default) then Tally(cs, key, default)[v] else 0
  {
    if cs != [] {
      var prefix := cs[..|cs| - 1];
      TallyCounts(prefix, key, default);
      assert forall c :: c in cs <==> c in prefix || c == cs[|cs| - 1];
    }
  }

  /** The number of states is the number of distinct `estado` values. */
  lemma EstatisticasEstados(cs: seq<Row>)
    requires Estatisticas(cs).Ok?
    ensures Estatisticas(cs).value.totalEstados == |Values(cs, "estado", ESTADO_DEFAULT)|
    ensures Estatisticas(cs).value.totalConcursos == |cs|
  {
    TallyCounts(cs, "estado", ESTADO_DEFAULT);
  }

  // --- the counts add up ------------------------------------------------

  /** Some key of a non-empty map. */
  ghost function Pick(m: map<Value, nat>): Value
    requires m != map[]
  {
    var k :| k in m; k
  }

  /** The sum of a map's counts. */
  ghost function MapSum(m: map<Value, nat>): nat
    decreases |m|
  {
    if m == map[] then 0
    else
      var k := Pick(m);
      RemoveShrinks(m, k);
      m[k] + MapSum(m - {k})
  }

  lemma RemoveShrinks(m: map<Value, nat>, k: Value)
    requires k in m
    ensures |m - {k}| < |m|
  {
    assert k !in m - {k};
    assert m.Keys == (m - {k}).Keys + {k};
  }

  lemma {:induction false} MapSumRemove(m: map<Value, nat>, k: Value)
    requires k in m
    ensures MapSum(m) == m[k] + MapSum(m - {k})
    decreases |m|
  {
    var j := Pick(m);
    if j != k {
      var mj, mk := m - {j}, m - {k};
      RemoveShrinks(m, j);
      MapSumRemove(mj, k);
      RemoveShrinks(m, k);
      MapSumRemove(mk, j);
      assert mj - {k} == mk - {j};
    }
  }

  lemma BumpSum(m: map<Value, nat>, v: Value)
    ensures MapSum(Bump(m, v)) == MapSum(m) + 1
  {
    var b := Bump(m, v);
    MapSumRemove(b, v);
    assert b - {v} == m - {v};
    if v in m {
      MapSumRemove(m, v);
    } else {
      assert m - {v} == m;
    }
  }

  /** Every row is counted once: the counts of a tally add up to the
      number of rows. */
  lemma {:induction false} TallySum(cs: seq<Row>, key: string, default: Value)
    ensures MapSum(Tally(cs, key, default)) == |cs|
  {
    if cs != [] {
      var prefix := cs[..|cs| - 1];
      TallySum(prefix, key, default);
      BumpSum(Tally(prefix, key, default), Get(cs[|cs| - 1], key, default));
    }
  }

  /** The per-state and the per-source counts both add up to the number
      of records. */
  lemma EstatisticasSums(cs: seq<Row>)
    requires Estatisticas(cs).Ok?
    ensures MapSum(Estatisticas(cs).value.estados) == Estatisticas(cs).value.totalConcursos
    ensures MapSum(Estatisticas(cs).value.fontes) == Estatisticas(cs).value.totalConcursos
  {
    TallySum(cs, "estado", ESTADO_DEFAULT);
    TallySum(cs, "fonte", FONTE_DEFAULT);
  }

  // ---------------------------------------------------------------------
  // The records the scrapers hand to inserir_concurso
  // ---------------------------------------------------------------------

  /** The dictionary a scraper builds for record `c`; `banca` is only
      present where the site sets it. */
  function ToRow(c: Scrapers.Concurso): Row {
    var r := map[
      "titulo" := Str(c.titulo), "organizacao" := Str(c.organizacao),
      "vagas" := Int(c.vagas), "status" := Str(c.status), "fonte" := Str(c.fonte),
      "link_edital" := Str(c.linkEdital), "data_publicacao" := Str(c.dataPublicacao)];
    if c.banca.Some? then r["banca" := Str(c.banca.value)] else r
  }

  /** What `inserir_concurso` binds for a scraped record: the scraped fields
      in column order, None for the four columns no scraper fills and for a
      missing `banca`. */
  lemma ScrapedInsertParams(c: Scrapers.Concurso)
    ensures InsertParams(ToRow(c)) == [
      Str(c.titulo), Str(c.organizacao), Null, Null, Int(c.vagas), Null,
      if c.banca.Some? then Str(c.banca.value) else Null,
      Str(c.fonte), Str(c.status), Str(c.dataPublicacao), Str(c.linkEdital), Null]
  {
    ToRowScraped(c);
    ToRowUnset(c);
  }

  lemma ToRowScraped(c: Scrapers.Concurso)
    ensures var r := ToRow(c);
            && Get(r, "titulo", Null) == Str(c.titulo)
            && Get(r, "organizacao", Null) == Str(c.organizacao)
            && Get(r, "vagas", Int(0)) == Int(c.vagas)
            && Get(r, "fonte", Null) == Str(c.fonte)
            && Get(r, "status", Str("open")) == Str(c.status)
            && Get(r, "data_publicacao", Null) == Str(c.dataPublicacao)
            && Get(r, "link_edital", Null) == Str(c.linkEdital)
  {
  }

  lemma ToRowUnset(c: Scrapers.Concurso)
    ensures var r := ToRow(c);
            && Get(r, "estado", Null) == Null
            && Get(r, "escolaridade", Null) == Null
            && Get(r, "salario", Null) == Null
            && Get(r, "descricao", Null) == Null
            && Get(r, "banca", Null) == if c.banca.Some? then Str(c.banca.value) else Null
  {
  }
}
