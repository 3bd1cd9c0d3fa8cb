/**
 * WhereHelper: builds the text of a parameterised SQL WHERE clause, one `?`
 * placeholder per condition, together with the list of values to bind.
 */
module Where {
  import opened SqlText

  /** A `(field, value, oper)` triple. */
  datatype Term = Term(field: string, value: Value, oper: string)

  /**
   * One entry of a helper's condition list: a plain triple, or a group
   * `([triple, ...], conj)` whose members are joined by the conjunction `conj`.
   */
  datatype Condition = Plain(term: Term) | Group(members: seq<Term>, conj: string)

  // ---------------------------------------------------------------------------
  // The text as the source builds it: every piece carries a leading
  // conjunction, which is sliced off afterwards.
  // ---------------------------------------------------------------------------

  /** `_makePair`: the piece `' conj field oper ?'` and the value it binds. */
  function MakePair(field: string, value: Value, oper: string := "=", conj: string := "AND"): (string, Value)
  {
    (" " + conj + " " + field + " " + oper + " ?", value)
  }

  /** The `tmpWhere` a group accumulates: one `MakePair` piece per member, joined by `conj`. */
  function GroupSql(members: seq<Term>, conj: string): string
    decreases |members|
  {
    if members == [] then ""
    else
      var t := members[|members| - 1];
      GroupSql(members[..|members| - 1], conj) + MakePair(t.field, t.value, t.oper, conj).0
  }

  /** The values a group binds, in member order. */
  function GroupValues(members: seq<Term>): seq<Value>
    decreases |members|
  {
    if members == [] then [] else GroupValues(members[..|members| - 1]) + [members[|members| - 1].value]
  }

  /** What one condition appends to `result`. */
  function Contribution(c: Condition): string
  {
    match c
    case Plain(t) => MakePair(t.field, t.value, t.oper).0
    case Group(ms, conj) =>
      var tmp := GroupSql(ms, conj);
      if tmp != "" then " AND (" + PySliceFrom(tmp, |conj| + 1) + ")" else ""
  }

  /** What one condition appends to `_values`. */
  function ContributionValues(c: Condition): seq<Value>
  {
    match c
    case Plain(t) => [t.value]
    case Group(ms, _) => GroupValues(ms)
  }

  /** `result` before the leading `' AND '` is sliced off. */
  function RawSql(conds: seq<Condition>): string
    decreases |conds|
  {
    if conds == [] then "" else RawSql(conds[..|conds| - 1]) + Contribution(conds[|conds| - 1])
  }

  /** `_values` after `sql()` has run over `conds`. */
  function CondValues(conds: seq<Condition>): seq<Value>
    decreases |conds|
  {
    if conds == [] then [] else CondValues(conds[..|conds| - 1]) + ContributionValues(conds[|conds| - 1])
  }

  /** The string `sql(whereStr)` returns. */
  function WhereSql(conds: seq<Condition>, whereStr: bool := true): string
  {
    var result := PySliceFrom(RawSql(conds), 5);
    if whereStr && result != "" then " WHERE " + result else result
  }

  // ---------------------------------------------------------------------------
  // The intended clause, defined directly: the rendered conditions joined by
  // ' AND ', each group in parentheses with its members joined by its
  // conjunction, and empty groups dropped.
  // ---------------------------------------------------------------------------

  /** `field oper ?` */
  function TermText(t: Term): string
  {
    t.field + " " + t.oper + " ?"
  }

  function TermTexts(ms: seq<Term>): (r: seq<string>)
    ensures |r| == |ms|
    decreases |ms|
  {
    if ms == [] then [] else TermTexts(ms[..|ms| - 1]) + [TermText(ms[|ms| - 1])]
  }

  /** The clause a condition renders to, or None for a group with no members. */
  function Clause(c: Condition): Option<string>
  {
    match c
    case Plain(t) => Some(TermText(t))
    case Group(ms, conj) =>
      if ms == [] then None else Some("( " + Join(" " + conj + " ", TermTexts(ms)) + ")")
  }

  function Clauses(conds: seq<Condition>): seq<string>
    decreases |conds|
  {
    if conds == [] then []
    else
      var c := Clause(conds[|conds| - 1]);
      Clauses(conds[..|conds| - 1]) + (if c.Some? then [c.value] else [])
  }

  /** The clause text the helper is meant to produce. */
  function ExpectedSql(conds: seq<Condition>, whereStr: bool): string
  {
    var cs := Clauses(conds);
    if cs == [] then "" else (if whereStr then " WHERE " else "") + Join(" AND ", cs)
  }

  /** Every member of a flat list of the triples of `conds`, groups expanded in place. */
  function AllTerms(conds: seq<Condition>): seq<Term>
    decreases |conds|
  {
    if conds == [] then []
    else
      AllTerms(conds[..|conds| - 1]) + match conds[|conds| - 1] case Plain(t) => [t] case Group(ms, _) => ms
  }

  /** No field, operator or conjunction holds a `?` of its own. */
  predicate NoStrayPlaceholder(conds: seq<Condition>)
  {
    forall i :: 0 <= i < |conds| ==>
      match conds[i]
      case Plain(t) => '?' !in t.field && '?' !in t.oper
      case Group(ms, conj) =>
        '?' !in conj && forall j :: 0 <= j < |ms| ==> '?' !in ms[j].field && '?' !in ms[j].oper
  }

  // ---------------------------------------------------------------------------
  // Lemmas
  // ---------------------------------------------------------------------------

  /** `_makePair` prefixes the term's text with its conjunction and passes the value through. */
  lemma MakePairShape(field: string, value: Value, oper: string, conj: string)
    ensures MakePair(field, value, oper, conj) == (" " + conj + " " + TermText(Term(field, value, oper)), value)
    ensures MakePair(field, value) == MakePair(field, value, "=", "AND")
  {
    assert " " + conj + " " + field + " " + oper + " ?" == " " + conj + " " + (field + " " + oper + " ?");
  }

  /** A group's accumulated text starts with `' ' + conj` followed by the joined member texts. */
  lemma {:induction false} GroupSqlAsJoin(ms: seq<Term>, conj: string)
    ensures ms == [] ==> GroupSql(ms, conj) == ""
    ensures ms != [] ==> GroupSql(ms, conj) == " " + conj + " " + Join(" " + conj + " ", TermTexts(ms))
    decreases |ms|
  {
    if ms != [] {
      var init, last := ms[..|ms| - 1], ms[|ms| - 1];
      var sep := " " + conj + " ";
      MakePairShape(last.field, last.value, last.oper, conj);
      var piece := sep + TermText(last);
      assert GroupSql(ms, conj) == GroupSql(init, conj) + piece;
      assert TermTexts(ms) == TermTexts(init) + [TermText(last)];
      if init == [] {
        assert TermTexts(ms) == [TermText(last)];
      } else {
        GroupSqlAsJoin(init, conj);
        var j0 := Join(sep, TermTexts(init));
        JoinSnoc(sep, TermTexts(init), TermText(last));
        assert GroupSql(ms, conj) == (sep + j0) + (sep + TermText(last));
        assert Join(sep, TermTexts(ms)) == j0 + sep + TermText(last);
      }
    }
  }

  /** Each condition contributes `' AND ' + its clause`, and nothing when it has no clause. */
  lemma ContributionIsClause(c: Condition)
    ensures Clause(c).None? ==> Contribution(c) == ""
    ensures Clause(c).Some? ==> Contribution(c) == " AND " + Clause(c).value
  {
    match c
    case Plain(t) =>
    case Group(ms, conj) =>
      GroupSqlAsJoin(ms, conj);
      if ms != [] {
        var tmp := GroupSql(ms, conj);
        var j := Join(" " + conj + " ", TermTexts(ms));
        assert tmp == (" " + conj) + (" " + j);
        assert PySliceFrom(tmp, |conj| + 1) == " " + j;
      }
  }

  /** Appending one contribution keeps the raw text equal to `' AND '` plus the joined clauses. */
  lemma RawStep(cs: seq<string>, raw: string, contrib: string, c: Option<string>)
    requires cs == [] ==> raw == ""
    requires cs != [] ==> raw == " AND " + Join(" AND ", cs)
    requires c.None? ==> contrib == ""
    requires c.Some? ==> contrib == " AND " + c.value
    ensures c.None? ==> raw + contrib == raw
    ensures c.Some? && cs == [] ==> raw + contrib == " AND " + Join(" AND ", [c.value])
    ensures c.Some? && cs != [] ==> raw + contrib == " AND " + Join(" AND ", cs + [c.value])
  {
    if c.Some? && cs != [] {
      JoinSnoc(" AND ", cs, c.value);
    }
    if c.Some? && cs == [] {
      assert Join(" AND ", [c.value]) == c.value;
    }
    if c.None? {
      assert raw + contrib == raw;
    }
  }

  /** The sliced-off prefix of the raw text is exactly the first `' AND '`. */
  lemma {:induction false} RawSqlAsJoin(conds: seq<Condition>)
    ensures Clauses(conds) == [] ==> RawSql(conds) == ""
    ensures Clauses(conds) != [] ==> RawSql(conds) == " AND " + Join(" AND ", Clauses(conds))
    decreases |conds|
  {
    if conds != [] {
      var init := conds[..|conds| - 1];
      var last := conds[|conds| - 1];
      RawSqlAsJoin(init);
      ContributionIsClause(last);
      RawStep(Clauses(init), RawSql(init), Contribution(last), Clause(last));
      assert RawSql(conds) == RawSql(init) + Contribution(last);
      assert Clauses(conds) == Clauses(init) + (if Clause(last).Some? then [Clause(last).value] else []);
      if Clause(last).Some? && Clauses(init) == [] {
        var v := Clause(last).value;
        assert Clauses(conds) == [v];
        assert RawSql(init) + Contribution(last) == " AND " + Join(" AND ", [v]);
        assert RawSql(conds) == " AND " + Join(" AND ", [v]);
      } else if Clause(last).None? {
        assert Clauses(conds) == Clauses(init);
      }
    }
  }

  /**
   * The source's slicing produces the intended clause: the rendered
   * conditions joined by ' AND ', behind ' WHERE ' when `whereStr` holds.
   */
  lemma WhereSqlIsExpected(conds: seq<Condition>, whereStr: bool)
    ensures WhereSql(conds, whereStr) == ExpectedSql(conds, whereStr)
  {
    RawSqlAsJoin(conds);
    var cs := Clauses(conds);
    if cs != [] {
      var body := Join(" AND ", cs);
      assert RawSql(conds) == " AND " + body;
      assert PySliceFrom(RawSql(conds), 5) == body;
      ClausesNonEmpty(conds);
      JoinNonEmpty(" AND ", cs);
    }
  }

  /** No clause is empty. */
  lemma {:induction false} ClausesNonEmpty(conds: seq<Condition>)
    ensures forall i :: 0 <= i < |Clauses(conds)| ==> Clauses(conds)[i] != ""
    decreases |conds|
  {
    if conds != [] {
      ClausesNonEmpty(conds[..|conds| - 1]);
      var c := Clause(conds[|conds| - 1]);
      if c.Some? {
        assert |c.value| > 0 by {
          match conds[|conds| - 1]
          case Plain(t) =>
          case Group(ms, conj) =>
        }
      }
    }
  }

  /** Joining a non-empty list whose first element is not empty is not empty. */
  lemma JoinNonEmpty(sep: string, xs: seq<string>)
    requires xs != [] && xs[0] != ""
    ensures Join(sep, xs) != ""
  {
    assert |xs| == 1 || Join(sep, xs) == xs[0] + sep + Join(sep, xs[1..]);
  }

  /** The clause is empty exactly when every condition is a group without members. */
  lemma {:induction false} ClausesEmptyIff(conds: seq<Condition>)
    ensures Clauses(conds) == [] <==>
      forall i :: 0 <= i < |conds| ==> conds[i].Group? && conds[i].members == []
    decreases |conds|
  {
    if conds != [] {
      var init := conds[..|conds| - 1];
      ClausesEmptyIff(init);
      assert forall i :: 0 <= i < |init| ==> init[i] == conds[i];
    }
  }

  /**
   * `sql()` returns '' exactly when no condition has text (an empty list or
   * only empty groups); otherwise the `whereStr=True` text is the
   * `whereStr=False` text behind ' WHERE '.
   */
  lemma WhereSqlEmptyIff(conds: seq<Condition>)
    ensures WhereSql(conds, true) == "" <==>
      forall i :: 0 <= i < |conds| ==> conds[i].Group? && conds[i].members == []
    ensures WhereSql(conds, false) == "" <==> WhereSql(conds, true) == ""
    ensures WhereSql(conds, true) != "" ==> WhereSql(conds, true) == " WHERE " + WhereSql(conds, false)
  {
    WhereSqlIsExpected(conds, true);
    WhereSqlIsExpected(conds, false);
    ClausesEmptyIff(conds);
    if Clauses(conds) != [] {
      ClausesNonEmpty(conds);
      JoinNonEmpty(" AND ", Clauses(conds));
    }
  }

  /** A group with no members adds neither text nor values. */
  lemma EmptyGroupAddsNothing(conds: seq<Condition>, conj: string)
    ensures RawSql(conds + [Group([], conj)]) == RawSql(conds)
    ensures WhereSql(conds + [Group([], conj)], true) == WhereSql(conds, true)
    ensures CondValues(conds + [Group([], conj)]) == CondValues(conds)
  {
    assert (conds + [Group([], conj)])[..|conds|] == conds;
  }

  /** The first doctest of `sql()`: one plain condition. */
  lemma DoctestOneCondition()
    ensures WhereSql([Plain(Term("field", Text("3"), "="))], true) == " WHERE field = ?"
  {
    WhereSqlIsExpected([Plain(Term("field", Text("3"), "="))], true);
  }

  /** The second doctest of `sql()`, for any two plain conditions: they are joined by AND. */
  lemma TwoPlainConditions(a: Term, b: Term)
    ensures WhereSql([Plain(a), Plain(b)], true) == " WHERE " + TermText(a) + " AND " + TermText(b)
  {
    var two := [Plain(a), Plain(b)];
    assert two[..1] == [Plain(a)];
    assert [Plain(a)][..0] == [];
    assert Clauses([Plain(a)]) == [TermText(a)];
    assert Clauses(two) == [TermText(a), TermText(b)];
    assert Join(" AND ", [TermText(a), TermText(b)]) == TermText(a) + " AND " + TermText(b) by {
      assert [TermText(a), TermText(b)][1..] == [TermText(b)];
    }
    WhereSqlIsExpected(two, true);
    assert ExpectedSql(two, true) == " WHERE " + (TermText(a) + " AND " + TermText(b));
  }

  /** A group of two renders in parentheses with its own conjunction, a space after the opening one. */
  lemma GroupOfTwo(a: Term, b: Term, conj: string)
    ensures Contribution(Group([a, b], conj)) == " AND ( " + TermText(a) + " " + conj + " " + TermText(b) + ")"
  {
    var ms := [a, b];
    assert ms[..1] == [a];
    assert [a][..0] == [];
    assert TermTexts(ms) == [TermText(a), TermText(b)];
    var sep := " " + conj + " ";
    assert Join(sep, [TermText(a), TermText(b)]) == TermText(a) + sep + TermText(b) by {
      assert [TermText(a), TermText(b)][1..] == [TermText(b)];
    }
    ContributionIsClause(Group(ms, conj));
    assert Contribution(Group(ms, conj)) == " AND " + ("( " + (TermText(a) + sep + TermText(b)) + ")");
  }

  /** A group binds its members' values in member order. */
  lemma {:induction false} GroupValuesAt(ms: seq<Term>)
    ensures |GroupValues(ms)| == |ms|
    ensures forall k :: 0 <= k < |ms| ==> GroupValues(ms)[k] == ms[k].value
    decreases |ms|
  {
    if ms != [] {
      GroupValuesAt(ms[..|ms| - 1]);
    }
  }

  /** `_values` holds the value of every triple in condition order, group members in their inner order. */
  lemma {:induction false} CondValuesAreTermValues(conds: seq<Condition>)
    ensures |CondValues(conds)| == |AllTerms(conds)|
    ensures forall k :: 0 <= k < |AllTerms(conds)| ==> CondValues(conds)[k] == AllTerms(conds)[k].value
    decreases |conds|
  {
    if conds != [] {
      var init, last := conds[..|conds| - 1], conds[|conds| - 1];
      CondValuesAreTermValues(init);
      var lastTerms := match last case Plain(t) => [t] case Group(ms, _) => ms;
      assert AllTerms(conds) == AllTerms(init) + lastTerms;
      assert CondValues(conds) == CondValues(init) + ContributionValues(last);
      assert |ContributionValues(last)| == |lastTerms| &&
        forall k :: 0 <= k < |lastTerms| ==> ContributionValues(last)[k] == lastTerms[k].value by {
        match last
        case Plain(t) =>
        case Group(ms, _) => GroupValuesAt(ms);
      }
    }
  }

  /** A group's text holds one `?` per member. */
  lemma {:induction false} GroupSqlCount(ms: seq<Term>, conj: string)
    requires '?' !in conj
    requires forall j :: 0 <= j < |ms| ==> '?' !in ms[j].field && '?' !in ms[j].oper
    ensures CountChar('?', GroupSql(ms, conj)) == |GroupValues(ms)|
    decreases |ms|
  {
    if ms != [] {
      var init, t := ms[..|ms| - 1], ms[|ms| - 1];
      assert forall j :: 0 <= j < |init| ==> init[j] == ms[j];
      GroupSqlCount(init, conj);
      var piece := MakePair(t.field, t.value, t.oper, conj).0;
      assert GroupSql(ms, conj) == GroupSql(init, conj) + piece;
      CountCharAppend('?', GroupSql(init, conj), piece);
      PieceCount(t.field, t.oper, conj);
    }
  }

  /** One `_makePair` piece holds exactly one `?`. */
  lemma PieceCount(field: string, oper: string, conj: string)
    requires '?' !in conj && '?' !in field && '?' !in oper
    ensures CountChar('?', " " + conj + " " + field + " " + oper + " ?") == 1
  {
    assert CountChar('?', " ?") == 1;
    PieceCountWith('?', " ", conj, field, oper, " ?");
  }

  /** `PieceCount` over arbitrary fixed parts `sp` and `q`. */
  lemma PieceCountWith(c: char, sp: string, conj: string, field: string, oper: string, q: string)
    requires c !in sp && c !in conj && c !in field && c !in oper
    ensures CountChar(c, sp + conj + sp + field + sp + oper + q) == CountChar(c, q)
  {
  }

  /** One condition's text holds as many `?` as it binds values. */
  lemma ContributionCount(c: Condition)
    requires NoStrayPlaceholder([c])
    ensures CountChar('?', Contribution(c)) == |ContributionValues(c)|
  {
    assert [c][0] == c;
    match c
    case Plain(t) =>
      PieceCount(t.field, t.oper, "AND");
    case Group(ms, conj) =>
      GroupCount(ms, conj);
  }

  /** A group's contribution holds one `?` per member. */
  lemma GroupCount(ms: seq<Term>, conj: string)
    requires '?' !in conj
    requires forall j :: 0 <= j < |ms| ==> '?' !in ms[j].field && '?' !in ms[j].oper
    ensures CountChar('?', Contribution(Group(ms, conj))) == |GroupValues(ms)|
  {
    GroupSqlCount(ms, conj);
    GroupContribution(ms, conj);
    var tmp := GroupSql(ms, conj);
    if tmp != "" {
      GroupSqlAsJoin(ms, conj);
      assert ms != [];
      var j := Join(" " + conj + " ", TermTexts(ms));
      assert tmp == (" " + conj) + (" " + j);
      SlicedGroupCount(tmp, conj);
    }
  }

  /** Slicing `' ' + conj` off a group's text and parenthesising it keeps its `?` count. */
  lemma SlicedGroupCount(tmp: string, conj: string)
    requires '?' !in conj
    requires |tmp| >= |conj| + 1 && tmp[..|conj| + 1] == " " + conj
    ensures CountChar('?', " AND (" + PySliceFrom(tmp, |conj| + 1) + ")") == CountChar('?', tmp)
  {
    var rest := PySliceFrom(tmp, |conj| + 1);
    assert tmp == (" " + conj) + rest;
    CountCharSkip('?', " " + conj, rest, "");
    CountCharSkip('?', " AND (", rest, ")");
  }

  /** The raw text holds one `?` per bound value. */
  lemma {:induction false} RawSqlCount(conds: seq<Condition>)
    requires NoStrayPlaceholder(conds)
    ensures CountChar('?', RawSql(conds)) == |CondValues(conds)|
    decreases |conds|
  {
    if conds != [] {
      var init := conds[..|conds| - 1];
      var last := conds[|conds| - 1];
      assert NoStrayPlaceholder(init) by {
        assert forall i :: 0 <= i < |init| ==> init[i] == conds[i];
      }
      assert NoStrayPlaceholder([last]) by {
        assert [last][0] == conds[|conds| - 1];
      }
      RawSqlCount(init);
      ContributionCount(last);
      assert RawSql(conds) == RawSql(init) + Contribution(last);
      assert CondValues(conds) == CondValues(init) + ContributionValues(last);
      CountCharAppend('?', RawSql(init), Contribution(last));
    }
  }

  /**
   * The returned text has one `?` placeholder per value in `_values`,
   * provided the fields, operators and conjunctions hold no `?` themselves.
   */
  lemma PlaceholdersMatchValues(conds: seq<Condition>, whereStr: bool)
    requires NoStrayPlaceholder(conds)
    ensures CountChar('?', WhereSql(conds, whereStr)) == |CondValues(conds)|
  {
    RawSqlCount(conds);
    RawSqlAsJoin(conds);
    var raw := RawSql(conds);
    var result := PySliceFrom(raw, 5);
    if raw != "" {
      assert raw == " AND " + result;
      CountCharSkip('?', " AND ", result, "");
    }
    if whereStr && result != "" {
      CountCharSkip('?', " WHERE ", result, "");
    }
  }

  /** Rendering one more condition appends its contribution to the text and to the values. */
  lemma RenderStep(conds: seq<Condition>, i: nat)
    requires i < |conds|
    ensures RawSql(conds[..i + 1]) == RawSql(conds[..i]) + Contribution(conds[i])
    ensures CondValues(conds[..i + 1]) == CondValues(conds[..i]) + ContributionValues(conds[i])
  {
    assert conds[..i + 1][..i] == conds[..i];
  }

  /** Rendering one more group member appends its piece to the group's text and values. */
  lemma GroupStep(ms: seq<Term>, conj: string, j: nat)
    requires j < |ms|
    ensures GroupSql(ms[..j + 1], conj) == GroupSql(ms[..j], conj) + MakePair(ms[j].field, ms[j].value, ms[j].oper, conj).0
    ensures GroupValues(ms[..j + 1]) == GroupValues(ms[..j]) + [ms[j].value]
  {
    assert ms[..j + 1][..j] == ms[..j];
  }

  /** What a group condition adds, unfolded. */
  lemma GroupContribution(ms: seq<Term>, conj: string)
    ensures Contribution(Group(ms, conj)) ==
      if GroupSql(ms, conj) != "" then " AND (" + PySliceFrom(GroupSql(ms, conj), |conj| + 1) + ")" else ""
    ensures ContributionValues(Group(ms, conj)) == GroupValues(ms)
  {
  }

  /** A WHERE-clause builder over a list of conditions, caching the values it binds. */
  class WhereHelper {
    var conditions: seq<Condition>
    /** `_values`: the values bound by the last `Sql()` call. */
    var boundValues: seq<Value>

    /** The default condition list is empty. */
    constructor (conditions: seq<Condition> := [])
      ensures this.conditions == conditions && boundValues == []
    {
      this.conditions := conditions;
      boundValues := [];
    }

    /** Renders the clause and refills `boundValues` from scratch. */
    method Sql(whereStr: bool := true) returns (result: string)
      modifies this`boundValues
      ensures result == WhereSql(conditions, whereStr)
      ensures boundValues == CondValues(conditions)
    {
      var conds := conditions;
      result := "";
      boundValues := [];
      var i := 0;
      while i < |conds|
        invariant 0 <= i <= |conds|
        invariant result == RawSql(conds[..i])
        invariant boundValues == CondValues(conds[..i])
      {
        RenderStep(conds, i);
        var cond := conds[i];
        if cond.Group? {
          var tmpWhere := AppendGroup(cond.members, cond.conj);
          GroupContribution(cond.members, cond.conj);
          if tmpWhere != "" {
            result := result + (" AND (" + PySliceFrom(tmpWhere, |cond.conj| + 1) + ")");
          }
        } else {
          var (sql, value) := MakePair(cond.term.field, cond.term.value, cond.term.oper);
          boundValues := boundValues + [value];
          result := result + sql;
        }
        i := i + 1;
      }
      assert conds[..i] == conds;
      result := PySliceFrom(result, 5);
      if whereStr && result != "" {
        result := " WHERE " + result;
      }
    }

    /**
     * The inner loop of `Sql` over a group's members: appends each member's
     * value and returns the group's accumulated `tmpWhere`.
     */
    method AppendGroup(item: seq<Term>, oper: string) returns (tmpWhere: string)
      modifies this`boundValues
      ensures tmpWhere == GroupSql(item, oper)
      ensures boundValues == old(boundValues) + GroupValues(item)
    {
      tmpWhere := "";
      var j := 0;
      while j < |item|
        invariant 0 <= j <= |item|
        invariant tmpWhere == GroupSql(item[..j], oper)
        invariant boundValues == old(boundValues) + GroupValues(item[..j])
      {
        GroupStep(item, oper, j);
        var (sql, value) := MakePair(item[j].field, item[j].value, item[j].oper, oper);
        boundValues := boundValues + [value];
        tmpWhere := tmpWhere + sql;
        j := j + 1;
      }
      assert item[..j] == item;
    }

    /** Renders only when nothing is cached; returns the cached values. */
    method Values() returns (vs: seq<Value>)
      modifies this`boundValues
      ensures old(boundValues) == [] ==> boundValues == CondValues(conditions)
      ensures old(boundValues) != [] ==> boundValues == old(boundValues)
      ensures vs == boundValues
    {
      if boundValues == [] {
        var _ := Sql();
      }
      vs := boundValues;
    }
  }

  /** Rendering twice gives the same text and leaves the same values: nothing accumulates. */
  method SqlTwice(w: WhereHelper, whereStr: bool) returns (first: string, second: string)
    modifies w`boundValues
    ensures first == second
    ensures w.boundValues == CondValues(w.conditions)
  {
    first := w.Sql(whereStr);
    var once := w.boundValues;
    second := w.Sql(whereStr);
    assert w.boundValues == once;
  }
}
