/** The statement-building half of `Database`: the SELECT that
    `obter_concursos` assembles from its filters and the parameter tuple
    `inserir_concurso` binds. Running the statements is SQLite's business
    and is not part of this model. */
module Database {
  import opened Common
  import opened Text

  /** An SQL text with the values bound to its `?` placeholders. */
  datatype Statement = Statement(sql: string, params: seq<string>)

  // ---------------------------------------------------------------------
  // obter_concursos
  // ---------------------------------------------------------------------

  /** The filter dictionary: a key maps to a string or to Python's None. */
  type Filters = map<string, Option<string>>

  /** The four filters the query understands. */
  datatype FilterKey = Estado | Status | Fonte | Busca

  /** The dictionary key of each filter. */
  function Name(k: FilterKey): string {
    match k
    case Estado => "estado"
    case Status => "status"
    case Fonte => "fonte"
    case Busca => "busca"
  }

  const SELECT_BASE := "SELECT * FROM concursos WHERE 1=1"
  const ORDER_LIMIT := " ORDER BY data_publicacao DESC LIMIT 1000"
  const ESTADO_SQL := " AND estado = ?"
  const STATUS_SQL := " AND status = ?"
  const FONTE_SQL := " AND fonte = ?"
  /** `" AND (titulo LIKE ? OR organizacao LIKE ? OR descricao LIKE ?)"`,
      written at its placeholders. */
  const BUSCA_SQL := " AND (titulo LIKE " + "?" + " OR organizacao LIKE " + "?" + " OR descricao LIKE " + "?" + ")"

  /** `filtros.get(key)`. */
  function Lookup(f: Filters, key: string): Option<string> {
    if key in f then f[key] else None
  }

  /** `if filtros.get(key):` */
  predicate Active(f: Filters, k: FilterKey) {
    Truthy(Lookup(f, Name(k)))
  }

  /** `if filtros:` on an optional dictionary. */
  predicate HasFilters(filtros: Option<Filters>) {
    filtros.Some? && filtros.value != map[]
  }

  /** Whether the clause of `k` is appended: the dictionary is non-empty
      and its value under `k` is truthy. */
  predicate ActiveIn(filtros: Option<Filters>, k: FilterKey) {
    HasFilters(filtros) && Active(filtros.value, k)
  }

  /** `f"%{termo}%"`. */
  function LikePattern(termo: string): string {
    "%" + termo + "%"
  }

  /** The clause a filter contributes when it is set: an equality on the
      column of the same name, or for `busca` a LIKE on three columns that
      binds the pattern three times. */
  function Clause(k: FilterKey, value: string): (c: Statement)
    ensures |c.params| == if k == Busca then 3 else 1
  {
    match k
    case Estado => Statement(ESTADO_SQL, [value])
    case Status => Statement(STATUS_SQL, [value])
    case Fonte => Statement(FONTE_SQL, [value])
    case Busca =>
      var termo := LikePattern(value);
      Statement(BUSCA_SQL, [termo, termo, termo])
  }

  /** One `if filtros.get(key):` step: the clause of `k` appended when its
      filter is set, nothing changed otherwise. */
  function Step(s: Statement, filtros: Option<Filters>, k: FilterKey): Statement {
    if ActiveIn(filtros, k) then
      var c := Clause(k, Lookup(filtros.value, Name(k)).value);
      Statement(s.sql + c.sql, s.params + c.params)
    else s
  }

  /** The base query with the clauses of the set filters appended in the
      order estado, status, fonte, busca. */
  function Filtered(filtros: Option<Filters>): Statement {
    Step(Step(Step(Step(Statement(SELECT_BASE, []), filtros, Estado), filtros, Status), filtros, Fonte), filtros, Busca)
  }

  /** The statement `obter_concursos` executes for the given filters. */
  function Select(filtros: Option<Filters>): Statement {
    var s := Filtered(filtros);
    Statement(s.sql + ORDER_LIMIT, s.params)
  }

  /** The query and parameters `obter_concursos` builds before executing. */
  method BuildSelect(filtros: Option<Filters>) returns (query: string, params: seq<string>)
    ensures Statement(query, params) == Select(filtros)
  {
    query := SELECT_BASE;
    params := [];
    ghost var s0 := Statement(SELECT_BASE, []);
    if HasFilters(filtros) {
      var f := filtros.value;
      if Active(f, Estado) {
        query := query + ESTADO_SQL;
        params := params + [f["estado"].value];
      }
      ghost var s1 := Step(s0, filtros, Estado);
      assert query == s1.sql && params == s1.params;
      if Active(f, Status) {
        query := query + STATUS_SQL;
        params := params + [f["status"].value];
      }
      ghost var s2 := Step(s1, filtros, Status);
      assert query == s2.sql && params == s2.params;
      if Active(f, Fonte) {
        query := query + FONTE_SQL;
        params := params + [f["fonte"].value];
      }
      ghost var s3 := Step(s2, filtros, Fonte);
      assert query == s3.sql && params == s3.params;
      if Active(f, Busca) {
        query := query + BUSCA_SQL;
        var termo := LikePattern(f["busca"].value);
        params := params + [termo, termo, termo];
      }
    }
    query := query + ORDER_LIMIT;
  }

  /** Without a set filter the statement is the bare base query followed
      by the ordering and limit, and nothing is bound. */
  lemma SelectWithoutFilters(filtros: Option<Filters>)
    requires forall k :: !ActiveIn(filtros, k)
    ensures Select(filtros) == Statement(SELECT_BASE + ORDER_LIMIT, [])
  {
    assert !ActiveIn(filtros, Estado) && !ActiveIn(filtros, Status);
    assert !ActiveIn(filtros, Fonte) && !ActiveIn(filtros, Busca);
  }

  /** The query always opens with the base SELECT and closes with the
      ordering and limit. */
  lemma SelectFrame(filtros: Option<Filters>)
    ensures var sql := Select(filtros).sql;
            && |SELECT_BASE| + |ORDER_LIMIT| <= |sql|
            && sql[..|SELECT_BASE|] == SELECT_BASE
            && sql[|sql| - |ORDER_LIMIT|..] == ORDER_LIMIT
  {
    var s := Filtered(filtros);
    FilteredStartsWithBase(filtros);
    var sql := s.sql + ORDER_LIMIT;
    assert sql[..|SELECT_BASE|] == s.sql[..|SELECT_BASE|];
    assert sql[|sql| - |ORDER_LIMIT|..] == ORDER_LIMIT;
  }

  lemma StepKeepsPrefix(s: Statement, filtros: Option<Filters>, k: FilterKey)
    requires |SELECT_BASE| <= |s.sql| && s.sql[..|SELECT_BASE|] == SELECT_BASE
    ensures var t := Step(s, filtros, k);
            |SELECT_BASE| <= |t.sql| && t.sql[..|SELECT_BASE|] == SELECT_BASE
  {
    var t := Step(s, filtros, k);
    assert t.sql[..|SELECT_BASE|] == s.sql[..|SELECT_BASE|];
  }

  lemma FilteredStartsWithBase(filtros: Option<Filters>)
    ensures var s := Filtered(filtros);
            |SELECT_BASE| <= |s.sql| && s.sql[..|SELECT_BASE|] == SELECT_BASE
  {
    var s0 := Statement(SELECT_BASE, []);
    StepKeepsPrefix(s0, filtros, Estado);
    var s1 := Step(s0, filtros, Estado);
    StepKeepsPrefix(s1, filtros, Status);
    var s2 := Step(s1, filtros, Status);
    StepKeepsPrefix(s2, filtros, Fonte);
    var s3 := Step(s2, filtros, Fonte);
    StepKeepsPrefix(s3, filtros, Busca);
  }

  // --- placeholders -----------------------------------------------------

  /** Appending a `?` and text free of `?` adds one placeholder. */
  lemma MarkAppend(s: string, rest: string)
    requires '?' !in rest
    ensures CountChar(s + "?" + rest, '?') == CountChar(s, '?') + 1
  {
    CountCharAppend(s, "?", '?');
    CountCharAppend(s + "?", rest, '?');
    CountCharAbsent(rest, '?');
    assert CountChar("?", '?') == 1 + CountChar([], '?');
  }

  lemma EqualityPlaceholder(column: string)
    requires '?' !in column
    ensures CountChar(" AND " + column + " = ?", '?') == 1
  {
    var s := " AND " + column + " = ";
    assert '?' !in " AND " && '?' !in " = ";
    assert '?' !in s;
    CountCharAbsent(s, '?');
    MarkAppend(s, "");
    assert s + "?" + "" == " AND " + column + " = ?";
  }

  lemma EstadoPlaceholder()
    ensures CountChar(ESTADO_SQL, '?') == 1
  {
    assert ESTADO_SQL == " AND " + "estado" + " = ?";
    EqualityPlaceholder("estado");
  }

  lemma StatusPlaceholder()
    ensures CountChar(STATUS_SQL, '?') == 1
  {
    assert STATUS_SQL == " AND " + "status" + " = ?";
    EqualityPlaceholder("status");
  }

  lemma FontePlaceholder()
    ensures CountChar(FONTE_SQL, '?') == 1
  {
    assert FONTE_SQL == " AND " + "fonte" + " = ?";
    EqualityPlaceholder("fonte");
  }

  /** Three placeholders between pieces free of `?`. */
  lemma ThreeMarks(p1: string, p2: string, p3: string, p4: string)
    requires '?' !in p1 && '?' !in p2 && '?' !in p3 && '?' !in p4
    ensures CountChar(p1 + "?" + p2 + "?" + p3 + "?" + p4, '?') == 3
  {
    CountCharAbsent(p1, '?');
    MarkAppend(p1, p2);
    MarkAppend(p1 + "?" + p2, p3);
    MarkAppend(p1 + "?" + p2 + "?" + p3, p4);
  }

  lemma BuscaPlaceholders()
    ensures CountChar(BUSCA_SQL, '?') == 3
  {
    NoMarkInTitulo();
    NoMarkInOrganizacao();
    NoMarkInDescricao();
    assert '?' !in ")";
    ThreeMarks(" AND (titulo LIKE ", " OR organizacao LIKE ", " OR descricao LIKE ", ")");
  }

  lemma NoMarkInTitulo()
    ensures '?' !in " AND (titulo LIKE "
  {
  }

  lemma NoMarkInOrganizacao()
    ensures '?' !in " OR organizacao LIKE "
  {
  }

  lemma NoMarkInDescricao()
    ensures '?' !in " OR descricao LIKE "
  {
  }

  lemma NoMarkInBase()
    ensures CountChar(SELECT_BASE, '?') == 0
  {
    assert '?' !in SELECT_BASE;
    CountCharAbsent(SELECT_BASE, '?');
  }

  lemma NoMarkInOrder()
    ensures CountChar(ORDER_LIMIT, '?') == 0
  {
    assert '?' !in ORDER_LIMIT;
    CountCharAbsent(ORDER_LIMIT, '?');
  }

  lemma ClausePlaceholders(k: FilterKey, value: string)
    ensures CountChar(Clause(k, value).sql, '?') == |Clause(k, value).params|
  {
    match k
    case Estado => EstadoPlaceholder();
    case Status => StatusPlaceholder();
    case Fonte => FontePlaceholder();
    case Busca => BuscaPlaceholders();
  }

  lemma StepPlaceholders(s: Statement, filtros: Option<Filters>, k: FilterKey)
    requires CountChar(s.sql, '?') == |s.params|
    ensures CountChar(Step(s, filtros, k).sql, '?') == |Step(s, filtros, k).params|
  {
    if ActiveIn(filtros, k) {
      var value := Lookup(filtros.value, Name(k)).value;
      ClausePlaceholders(k, value);
      JoinPlaceholders(s, Clause(k, value));
    }
  }

  lemma JoinPlaceholders(s: Statement, c: Statement)
    requires CountChar(s.sql, '?') == |s.params|
    requires CountChar(c.sql, '?') == |c.params|
    ensures CountChar(s.sql + c.sql, '?') == |s.params + c.params|
  {
    CountCharAppend(s.sql, c.sql, '?');
  }

  lemma FilteredPlaceholders(filtros: Option<Filters>)
    ensures CountChar(Filtered(filtros).sql, '?') == |Filtered(filtros).params|
  {
    var s0 := Statement(SELECT_BASE, []);
    NoMarkInBase();
    StepPlaceholders(s0, filtros, Estado);
    var s1 := Step(s0, filtros, Estado);
    StepPlaceholders(s1, filtros, Status);
    var s2 := Step(s1, filtros, Status);
    StepPlaceholders(s2, filtros, Fonte);
    var s3 := Step(s2, filtros, Fonte);
    StepPlaceholders(s3, filtros, Busca);
  }

  /** Every `?` of the query has exactly one parameter: the statement
      binds as many values as it has placeholders. */
  lemma SelectPlaceholders(filtros: Option<Filters>)
    ensures CountChar(Select(filtros).sql, '?') == |Select(filtros).params|
  {
    var s := Filtered(filtros);
    FilteredPlaceholders(filtros);
    NoMarkInOrder();
    TailPlaceholders(s, ORDER_LIMIT);
  }

  lemma TailPlaceholders(s: Statement, tail: string)
    requires CountChar(s.sql, '?') == |s.params| && CountChar(tail, '?') == 0
    ensures CountChar(s.sql + tail, '?') == |s.params|
  {
    CountCharAppend(s.sql, tail, '?');
  }

  // --- what the filters decide ------------------------------------------

  /** A set `busca` filter binds its pattern `%termo%` three times, as the
      last three parameters, and its clause is the last before the
      ordering. */
  lemma SelectBusca(filtros: Option<Filters>)
    requires ActiveIn(filtros, Busca)
    ensures var s := Select(filtros);
            var termo := LikePattern(filtros.value["busca"].value);
            && |s.params| >= 3
            && s.params[|s.params| - 3..] == [termo, termo, termo]
            && |s.sql| >= |BUSCA_SQL + ORDER_LIMIT|
            && s.sql[|s.sql| - |BUSCA_SQL + ORDER_LIMIT|..] == BUSCA_SQL + ORDER_LIMIT
  {
    var s3 := Step(Step(Step(Statement(SELECT_BASE, []), filtros, Estado), filtros, Status), filtros, Fonte);
    var termo := LikePattern(filtros.value["busca"].value);
    var sql := s3.sql + BUSCA_SQL + ORDER_LIMIT;
    assert sql == s3.sql + (BUSCA_SQL + ORDER_LIMIT);
    assert sql[|sql| - |BUSCA_SQL + ORDER_LIMIT|..] == BUSCA_SQL + ORDER_LIMIT;
    assert (s3.params + [termo, termo, termo])[|s3.params|..] == [termo, termo, termo];
  }

  /** An equality filter that is set binds its value; one that is not set
      binds nothing and leaves the query as it was. */
  lemma StepBindsValue(s: Statement, filtros: Option<Filters>, k: FilterKey)
    requires k != Busca
    ensures var t := Step(s, filtros, k);
            if ActiveIn(filtros, k) then
              t.params == s.params + [filtros.value[Name(k)].value] && |t.sql| > |s.sql| && t.sql[..|s.sql|] == s.sql
            else t == s
  {
    if ActiveIn(filtros, k) {
      var t := Step(s, filtros, k);
      assert t.sql[..|s.sql|] == s.sql;
    }
  }

  /** The filter values reach SQLite only as parameters: two filter sets
      that switch on the same clauses produce the same SQL text, whatever
      their values. */
  lemma SelectSqlIgnoresValues(a: Option<Filters>, b: Option<Filters>)
    requires forall k :: ActiveIn(a, k) <==> ActiveIn(b, k)
    ensures Select(a).sql == Select(b).sql
  {
    assert ActiveIn(a, Estado) <==> ActiveIn(b, Estado);
    assert ActiveIn(a, Status) <==> ActiveIn(b, Status);
    assert ActiveIn(a, Fonte) <==> ActiveIn(b, Fonte);
    assert ActiveIn(a, Busca) <==> ActiveIn(b, Busca);
  }

  /** Only the set filters matter: filter sets that agree on which clauses
      are on and on their values give the same statement. */
  lemma SelectOnlyActive(a: Option<Filters>, b: Option<Filters>)
    requires forall k :: ActiveIn(a, k) <==> ActiveIn(b, k)
    requires forall k :: ActiveIn(a, k) && ActiveIn(b, k) ==> Lookup(a.value, Name(k)) == Lookup(b.value, Name(k))
    ensures Select(a) == Select(b)
  {
    assert ActiveIn(a, Estado) <==> ActiveIn(b, Estado);
    assert ActiveIn(a, Status) <==> ActiveIn(b, Status);
    assert ActiveIn(a, Fonte) <==> ActiveIn(b, Fonte);
    assert ActiveIn(a, Busca) <==> ActiveIn(b, Busca);
  }

  // ---------------------------------------------------------------------
  // inserir_concurso
  // ---------------------------------------------------------------------

  /** The columns `inserir_concurso` binds, in the order of its tuple. */
  const INSERT_COLUMNS: seq<string> := [
    "titulo", "organizacao", "estado", "escolaridade", "vagas", "salario",
    "banca", "fonte", "status", "data_publicacao", "link_edital", "descricao"]

  /** What a missing key binds: `vagas` 0, `status` `'open'`, anything
      else None. */
  function InsertDefault(column: string): Value {
    if column == "vagas" then Int(0)
    else if column == "status" then Str("open")
    else Null
  }

  /** The parameter tuple of `inserir_concurso`: one `.get` per column. */
  function InsertParams(concurso: Row): (r: seq<Value>)
    ensures |r| == |INSERT_COLUMNS|
    ensures forall i :: 0 <= i < |r| ==> r[i] == Get(concurso, INSERT_COLUMNS[i], InsertDefault(INSERT_COLUMNS[i]))
  {
    var r := [
      Get(concurso, "titulo", Null),
      Get(concurso, "organizacao", Null),
      Get(concurso, "estado", Null),
      Get(concurso, "escolaridade", Null),
      Get(concurso, "vagas", Int(0)),
      Get(concurso, "salario", Null),
      Get(concurso, "banca", Null),
      Get(concurso, "fonte", Null),
      Get(concurso, "status", Str("open")),
      Get(concurso, "data_publicacao", Null),
      Get(concurso, "link_edital", Null),
      Get(concurso, "descricao", Null)];
    InsertDefaults();
    r
  }

  lemma InsertDefaults()
    ensures InsertDefault(INSERT_COLUMNS[4]) == Int(0)
    ensures InsertDefault(INSERT_COLUMNS[8]) == Str("open")
    ensures forall i :: 0 <= i < |INSERT_COLUMNS| && i != 4 && i != 8 ==> InsertDefault(INSERT_COLUMNS[i]) == Null
  {
  }
}
