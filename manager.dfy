/** `ScraperManager.scrape_all`: run every scraper in turn, concatenate what
    they return, then drop every record whose title/organisation key was
    already seen, keeping the first. */
module ScraperManager {
  import opened Common
  import opened Scrapers
  import opened Text

  // ---------------------------------------------------------------------
  // De-duplication
  // ---------------------------------------------------------------------

  /** The de-duplication key `f"{titulo}_{organizacao}"`. */
  function Key(c: Concurso): string {
    c.titulo + "_" + c.organizacao
  }

  /** The keys occurring in `s`. */
  function Keys(s: seq<Concurso>): set<string> {
    set c | c in s :: Key(c)
  }

  lemma KeysSnoc(s: seq<Concurso>, c: Concurso)
    ensures Keys(s + [c]) == Keys(s) + {Key(c)}
  {
    assert forall d :: d in s + [c] <==> d in s || d == c;
  }

  /** The records of `s` that are the first of their key, in order. */
  function Dedup(s: seq<Concurso>): seq<Concurso> {
    if s == [] then []
    else
      var prefix := s[..|s| - 1];
      var c := s[|s| - 1];
      if Key(c) in Keys(prefix) then Dedup(prefix) else Dedup(prefix) + [c]
  }

  /** `r` is `s` with some elements left out. */
  predicate IsSubsequence<T(==)>(r: seq<T>, s: seq<T>)
    decreases |s|
  {
    if r == [] then true
    else if s == [] then false
    else (r[|r| - 1] == s[|s| - 1] && IsSubsequence(r[..|r| - 1], s[..|s| - 1]))
         || IsSubsequence(r, s[..|s| - 1])
  }

  lemma DedupSnoc(s: seq<Concurso>, i: nat)
    requires i < |s|
    ensures Dedup(s[..i + 1]) == if Key(s[i]) in Keys(s[..i]) then Dedup(s[..i]) else Dedup(s[..i]) + [s[i]]
  {
    assert s[..i + 1][..i] == s[..i];
  }

  lemma KeysStep(s: seq<Concurso>, i: nat)
    requires i < |s|
    ensures Keys(s[..i + 1]) == Keys(s[..i]) + {Key(s[i])}
  {
    TakeSnoc(s, i);
    KeysSnoc(s[..i], s[i]);
  }

  lemma DedupLast(s: seq<Concurso>)
    requires s != []
    ensures Dedup(s) == if Key(s[|s| - 1]) in Keys(s[..|s| - 1]) then Dedup(s[..|s| - 1]) else Dedup(s[..|s| - 1]) + [s[|s| - 1]]
  {
  }

  /** No key is lost: every key of the input has a record in the output. */
  lemma {:induction false} DedupKeys(s: seq<Concurso>)
    ensures Keys(Dedup(s)) == Keys(s)
  {
    if s != [] {
      var prefix := s[..|s| - 1];
      var c := s[|s| - 1];
      assert s == prefix + [c];
      DedupKeys(prefix);
      KeysSnoc(prefix, c);
      KeysSnoc(Dedup(prefix), c);
    }
  }

  /** No two records of the output share a key. */
  lemma {:induction false} DedupDistinct(s: seq<Concurso>)
    ensures forall i, j :: 0 <= i < j < |Dedup(s)| ==> Key(Dedup(s)[i]) != Key(Dedup(s)[j])
  {
    if s != [] {
      var prefix := s[..|s| - 1];
      var c := s[|s| - 1];
      DedupDistinct(prefix);
      if Key(c) !in Keys(prefix) {
        DedupKeys(prefix);
        var p := Dedup(prefix);
        var r := p + [c];
        forall i, j | 0 <= i < j < |r|
          ensures Key(r[i]) != Key(r[j])
        {
          if j == |p| {
            assert r[i] == p[i] && r[i] in p;
            assert Key(r[i]) in Keys(p);
          }
        }
      }
    }
  }

  /** The output keeps the input's order and invents nothing. */
  lemma {:induction false} DedupSubsequence(s: seq<Concurso>)
    ensures IsSubsequence(Dedup(s), s)
  {
    if s != [] {
      var prefix := s[..|s| - 1];
      var c := s[|s| - 1];
      DedupSubsequence(prefix);
      var p := Dedup(prefix);
      if Key(c) in Keys(prefix) {
        if p != [] {
          assert IsSubsequence(p, s[..|s| - 1]);
        }
      } else {
        assert (p + [c])[..|p|] == p;
      }
    }
  }

  /** Every record of the output comes from the input. */
  lemma {:induction false} DedupMembers(s: seq<Concurso>)
    ensures forall c :: c in Dedup(s) ==> c in s
  {
    if s != [] {
      var prefix := s[..|s| - 1];
      DedupMembers(prefix);
      assert forall c :: c in prefix ==> c in s;
    }
  }

  /** The record kept for a key is its first occurrence. */
  lemma {:induction false} DedupKeepsFirst(s: seq<Concurso>, i: nat)
    requires i < |s|
    requires forall k :: 0 <= k < i ==> Key(s[k]) != Key(s[i])
    ensures s[i] in Dedup(s)
  {
    var prefix := s[..|s| - 1];
    if i == |s| - 1 {
      forall d | d in prefix
        ensures Key(d) != Key(s[i])
      {
        var k :| 0 <= k < |prefix| && prefix[k] == d;
        assert s[k] == d;
      }
    } else {
      DedupKeepsFirst(prefix, i);
    }
  }

  /** One record per key: the output has as many records as the input has keys. */
  lemma {:induction false} DedupSize(s: seq<Concurso>)
    ensures |Dedup(s)| == |Keys(s)|
  {
    if s != [] {
      var prefix := s[..|s| - 1];
      var c := s[|s| - 1];
      assert s == prefix + [c];
      DedupSize(prefix);
      KeysSnoc(prefix, c);
      if Key(c) in Keys(prefix) {
        assert Keys(s) == Keys(prefix);
      } else {
        assert |Keys(prefix) + {Key(c)}| == |Keys(prefix)| + 1;
      }
    }
  }

  /** A list whose keys are all different is left untouched. */
  lemma {:induction false} DedupDistinctUnchanged(s: seq<Concurso>)
    requires forall i, j :: 0 <= i < j < |s| ==> Key(s[i]) != Key(s[j])
    ensures Dedup(s) == s
  {
    if s != [] {
      var prefix := s[..|s| - 1];
      var c := s[|s| - 1];
      DistinctPrefix(s, prefix);
      DedupDistinctUnchanged(prefix);
      KeyAbsent(prefix, Key(c));
      DedupFresh(s);
    }
  }

  lemma DedupFresh(s: seq<Concurso>)
    requires s != [] && Dedup(s[..|s| - 1]) == s[..|s| - 1]
    requires Key(s[|s| - 1]) !in Keys(s[..|s| - 1])
    ensures Dedup(s) == s
  {
    DedupLast(s);
    SnocSplit(s);
  }

  lemma DistinctPrefix(s: seq<Concurso>, prefix: seq<Concurso>)
    requires s != [] && prefix == s[..|s| - 1]
    requires forall i, j :: 0 <= i < j < |s| ==> Key(s[i]) != Key(s[j])
    ensures forall i, j :: 0 <= i < j < |prefix| ==> Key(prefix[i]) != Key(prefix[j])
    ensures forall k :: 0 <= k < |prefix| ==> Key(prefix[k]) != Key(s[|s| - 1])
  {
  }

  lemma KeyAbsent(s: seq<Concurso>, key: string)
    requires forall k :: 0 <= k < |s| ==> Key(s[k]) != key
    ensures key !in Keys(s)
  {
    forall d | d in s
      ensures Key(d) != key
    {
      var k :| 0 <= k < |s| && s[k] == d;
    }
  }

  /** De-duplicating twice changes nothing more. */
  lemma DedupIdempotent(s: seq<Concurso>)
    ensures Dedup(Dedup(s)) == Dedup(s)
  {
    DedupDistinct(s);
    DedupDistinctUnchanged(Dedup(s));
  }

  /** The key does not separate its two parts, so different openings can
      collide: title "a_b" at "c" and title "a" at "b_c" both give "a_b_c". */
  lemma KeyCollision(c1: Concurso, c2: Concurso)
    requires c1.titulo == "a_b" && c1.organizacao == "c"
    requires c2.titulo == "a" && c2.organizacao == "b_c"
    ensures Key(c1) == Key(c2)
    ensures Dedup([c1, c2]) == [c1]
  {
    assert Key(c1) == "a_b_c";
    assert Key(c2) == "a_b_c";
    SameKeyKeepsFirst(c1, c2);
  }

  /** Of two records with the same key only the first is kept. Records from
      two sites merge only when their titles and organisations agree, or
      when their keys collide (`KeyCollision`). */
  lemma SameKeyKeepsFirst(c1: Concurso, c2: Concurso)
    requires Key(c1) == Key(c2)
    ensures Dedup([c1, c2]) == [c1]
  {
    assert [c1][..0] == [];
    assert Dedup([c1]) == [c1];
    assert [c1, c2][..1] == [c1];
    assert c1 in [c1];
    assert Key(c2) in Keys([c1]);
  }

  /** The same title under two organisations gives two keys, so both
      records survive: sites that put their own fixed name in `organizacao`
      never merge an opening they share. */
  lemma SameTitleOtherOrganisationKept(c1: Concurso, c2: Concurso)
    requires c1.titulo == c2.titulo && c1.organizacao != c2.organizacao
    ensures Key(c1) != Key(c2)
    ensures Dedup([c1, c2]) == [c1, c2]
  {
    var n := |c1.titulo| + 1;
    assert Key(c1)[n..] == c1.organizacao;
    assert Key(c2)[n..] == c2.organizacao;
    DedupDistinctUnchanged([c1, c2]);
  }

  /** A site that takes the organisation from the title (without a suffix)
      merges with a fixed-organisation site whenever its title is the other
      site's title with that site's suffix appended, and the part of it
      before the first hyphen, stripped, is the other site's name: both
      records then have the same title and organisation, and only the first
      is kept. */
  lemma FixedNameTitleMerges(s1: Site, t1: string, item1: Item, s2: Site, t2: string, item2: Item, today: string)
    requires s1.org.OrgFromTitle? && s1.suffix == ""
    requires s2.org.OrgFixed?
    requires t1 == t2 + s2.suffix
    requires Strip(BeforeDash(t1)) == s2.org.name
    ensures var c1, c2 := MakeConcurso(s1, t1, item1, today), MakeConcurso(s2, t2, item2, today);
            Key(c1) == Key(c2) && Dedup([c1, c2]) == [c1]
  {
    var c1 := MakeConcurso(s1, t1, item1, today);
    var c2 := MakeConcurso(s2, t2, item2, today);
    FixedNameTitleKeys(s1, t1, item1, s2, t2, item2, today);
    SameKeyKeepsFirst(c1, c2);
  }

  lemma FixedNameTitleKeys(s1: Site, t1: string, item1: Item, s2: Site, t2: string, item2: Item, today: string)
    requires s1.org.OrgFromTitle? && s1.suffix == ""
    requires s2.org.OrgFixed?
    requires t1 == t2 + s2.suffix
    requires Strip(BeforeDash(t1)) == s2.org.name
    ensures Key(MakeConcurso(s1, t1, item1, today)) == Key(MakeConcurso(s2, t2, item2, today))
  {
    var c1 := MakeConcurso(s1, t1, item1, today);
    var c2 := MakeConcurso(s2, t2, item2, today);
    EmptySuffix(t1, s1.suffix);
    assert c1.titulo == c2.titulo;
    assert c1.organizacao == c2.organizacao;
  }

  lemma EmptySuffix(t: string, suffix: string)
    requires suffix == ""
    ensures t + suffix == t
  {
  }

  lemma OrganizacaoOfPlainTitle(name: string)
    requires '-' !in name && Stripped(name)
    ensures Organizacao(OrgFromTitle, name) == name
  {
    BeforeDashNoDash(name);
    StripStripped(name);
  }

  /** A qconcursos element and a picaprova element both titled "PIC Aprova"
      give one record: the picaprova one is dropped. */
  lemma QConcursosMergesWithPicAprova(item1: Item, item2: Item, today: string)
    ensures var c1, c2 := MakeConcurso(QCONCURSOS, "PIC Aprova", item1, today), MakeConcurso(PIC_APROVA, "PIC Aprova", item2, today);
            Dedup([c1, c2]) == [c1]
  {
    PicAprovaPlain();
    PlainNameMerges(QCONCURSOS, item1, PIC_APROVA, item2, today);
  }

  lemma PicAprovaPlain()
    ensures PIC_APROVA.org.OrgFixed? && PIC_APROVA.suffix == "" && PIC_APROVA.org.name == "PIC Aprova"
    ensures '-' !in "PIC Aprova" && Stripped("PIC Aprova")
  {
    PicAprovaName();
  }

  lemma PicAprovaName()
    ensures '-' !in "PIC Aprova" && Stripped("PIC Aprova")
  {
  }

  /** The case of a title that is the fixed name itself. */
  lemma PlainNameMerges(s1: Site, item1: Item, s2: Site, item2: Item, today: string)
    requires s1.org.OrgFromTitle? && s1.suffix == ""
    requires s2.org.OrgFixed? && s2.suffix == ""
    requires '-' !in s2.org.name && Stripped(s2.org.name)
    ensures var c1, c2 := MakeConcurso(s1, s2.org.name, item1, today), MakeConcurso(s2, s2.org.name, item2, today);
            Dedup([c1, c2]) == [c1]
  {
    var name := s2.org.name;
    OrganizacaoOfPlainTitle(name);
    assert name == name + s2.suffix;
    FixedNameTitleMerges(s1, name, item1, s2, name, item2, today);
  }

  /** The same with text after a hyphen: a qconcursos element and a
      picaprova element both titled "PIC Aprova -<rest>" give one record. */
  lemma QConcursosMergesWithPicAprovaEdital(rest: string, item1: Item, item2: Item, today: string)
    ensures var t := "PIC Aprova -" + rest;
            var c1, c2 := MakeConcurso(QCONCURSOS, t, item1, today), MakeConcurso(PIC_APROVA, t, item2, today);
            Dedup([c1, c2]) == [c1]
  {
    var t := "PIC Aprova -" + rest;
    PicAprovaPlain();
    PicAprovaEditalOrganizacao(rest);
    FixedNameTitleMerges(QCONCURSOS, t, item1, PIC_APROVA, t, item2, today);
  }

  lemma PicAprovaEditalOrganizacao(rest: string)
    ensures Strip(BeforeDash("PIC Aprova -" + rest)) == "PIC Aprova"
  {
    PicAprovaBlank();
    assert "PIC Aprova -" + rest == "PIC Aprova " + "-" + rest;
    BeforeDashAt("PIC Aprova ", rest);
    StripTrailingBlank("PIC Aprova");
  }

  lemma PicAprovaBlank()
    ensures '-' !in "PIC Aprova " && "PIC Aprova " == "PIC Aprova" + " " && Stripped("PIC Aprova")
  {
  }

  /** A qconcursos title "VUNESP -<rest> - VUNESP" and a vunesp title
      "VUNESP -<rest>" give one record: the vunesp one is dropped. */
  lemma QConcursosMergesWithVunesp(rest: string, item1: Item, item2: Item, today: string)
    ensures var t2 := "VUNESP -" + rest;
            var c1, c2 := MakeConcurso(QCONCURSOS, t2 + " - VUNESP", item1, today), MakeConcurso(VUNESP, t2, item2, today);
            Dedup([c1, c2]) == [c1]
  {
    var t2 := "VUNESP -" + rest;
    var t1 := t2 + " - VUNESP";
    VunespOrganizacao(rest);
    assert VUNESP.suffix == " - VUNESP" && VUNESP.org == OrgFixed("VUNESP");
    FixedNameTitleMerges(QCONCURSOS, t1, item1, VUNESP, t2, item2, today);
  }

  lemma VunespOrganizacao(rest: string)
    ensures Strip(BeforeDash("VUNESP -" + rest + " - VUNESP")) == "VUNESP"
  {
    VunespPlain();
    assert "VUNESP -" + rest + " - VUNESP" == "VUNESP " + "-" + (rest + " - VUNESP");
    BeforeDashAt("VUNESP ", rest + " - VUNESP");
    StripTrailingBlank("VUNESP");
  }

  lemma VunespPlain()
    ensures '-' !in "VUNESP " && Stripped("VUNESP") && "VUNESP " == "VUNESP" + " "
  {
  }

  // ---------------------------------------------------------------------
  // Running the scrapers
  // ---------------------------------------------------------------------

  /** How one scraper's `scrape()` ended: it raised (the manager logs it and
      goes on), or it returned its records for what its fetch produced. */
  datatype Run = Raised | Fetched(page: Option<Page>)

  function RunOutput(s: Scraper, run: Run, today: string): seq<Concurso> {
    match run
    case Raised => []
    case Fetched(page) => Output(s, page, today)
  }

  /** `todos_concursos` after the runs of the first `|runs|` scrapers of
      `scrapers`. */
  function Collected(scrapers: seq<Scraper>, runs: seq<Run>, today: string): seq<Concurso>
    requires |runs| <= |scrapers|
  {
    if runs == [] then []
    else Collected(scrapers, runs[..|runs| - 1], today) + RunOutput(scrapers[|runs| - 1], runs[|runs| - 1], today)
  }

  lemma CollectedSnoc(scrapers: seq<Scraper>, runs: seq<Run>, i: nat, today: string)
    requires i < |runs| <= |scrapers|
    ensures Collected(scrapers, runs[..i + 1], today) == Collected(scrapers, runs[..i], today) + RunOutput(scrapers[i], runs[i], today)
  {
    assert runs[..i + 1][..i] == runs[..i];
  }

  /** A scraper that raises contributes nothing; when every scraper raises
      the result is empty. */
  lemma {:induction false} AllRaisedEmpty(scrapers: seq<Scraper>, runs: seq<Run>, today: string)
    requires |runs| <= |scrapers|
    requires forall i :: 0 <= i < |runs| ==> runs[i] == Raised
    ensures Collected(scrapers, runs, today) == []
  {
    if runs != [] {
      AllRaisedEmpty(scrapers, runs[..|runs| - 1], today);
    }
  }

  /** Every record collected from the list's scrapers carries a positive count. */
  lemma {:induction false} CollectedPositiveVagas(runs: seq<Run>, today: string)
    requires |runs| <= |SCRAPERS|
    ensures forall c :: c in Collected(SCRAPERS, runs, today) ==> c.vagas > 0
  {
    if runs != [] {
      var n := |runs| - 1;
      CollectedPositiveVagas(runs[..n], today);
      if runs[n].Fetched? {
        ScrapersEmitPositiveVagas(n, runs[n].page, today);
      }
    }
  }

  /** The first loop of `ScraperManager.scrape_all`: every scraper in list
      order, a raising one contributing nothing. `totalInicial` is the raw
      count the source reports before removing duplicates. */
  method CollectAll(scrapers: seq<Scraper>, runs: seq<Run>, today: string) returns (todos: seq<Concurso>, totalInicial: nat)
    requires |runs| == |scrapers|
    ensures todos == Collected(scrapers, runs, today)
    ensures totalInicial == |todos|
  {
    todos := [];
    totalInicial := 0;
    for i := 0 to |scrapers|
      invariant todos == Collected(scrapers, runs[..i], today)
      invariant totalInicial == |todos|
    {
      match runs[i] {
        case Raised =>
        case Fetched(page) =>
          var concursos := Scrape(scrapers[i], page, today);
          todos := todos + concursos;
          totalInicial := totalInicial + |concursos|;
      }
      CollectedSnoc(scrapers, runs, i, today);
    }
    assert runs[..|runs|] == runs;
  }

  /** The second loop of `ScraperManager.scrape_all`: keep a record when
      its key has not been seen yet. */
  method KeepFirstPerKey(todos: seq<Concurso>) returns (unicos: seq<Concurso>)
    ensures unicos == Dedup(todos)
  {
    unicos := [];
    var vistos: set<string> := {};
    for i := 0 to |todos|
      invariant unicos == Dedup(todos[..i])
      invariant vistos == Keys(todos[..i])
    {
      var chave := Key(todos[i]);
      DedupSnoc(todos, i);
      KeysStep(todos, i);
      if chave !in vistos {
        vistos := vistos + {chave};
        unicos := unicos + [todos[i]];
      }
    }
    assert todos[..|todos|] == todos;
  }

  /** `ScraperManager.scrape_all`, given how each scraper's run ends. */
  method ScrapeAll(runs: seq<Run>, today: string) returns (unicos: seq<Concurso>, totalInicial: nat)
    requires |runs| == |SCRAPERS|
    ensures totalInicial == |Collected(SCRAPERS, runs, today)|
    ensures unicos == Dedup(Collected(SCRAPERS, runs, today))
  {
    var todos;
    todos, totalInicial := CollectAll(SCRAPERS, runs, today);
    unicos := KeepFirstPerKey(todos);
  }
}
