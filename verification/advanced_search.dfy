/** The advanced-search form's submit handler: it turns the form fields into
    one natural-language query, resets every field, and hands the query to the
    parent chat box. */
module AdvancedSearch {
  import opened Text

  /** The seven text fields of the form. */
  datatype SearchForm = SearchForm(
    name: string,
    department: string,
    course: string,
    rating: string,
    difficulty: string,
    tags: string,
    availability: string)

  /** What a submit leaves behind: the new field values and the arguments of
      every `onSubmit` call, in order. */
  datatype SubmitResult = SubmitResult(form: SearchForm, submitted: seq<string>)

  const BlankForm := SearchForm("", "", "", "", "", "", "")
  const QueryBase := "Find professors"
  const FallbackQuery := "Find professors matching your criteria."

  /** The four fields the query reads, in the order their clauses appear. */
  datatype Criterion = Department | MinimumRating | Course | Availability

  const CriterionOrder: seq<Criterion> := [Department, MinimumRating, Course, Availability]

  function FieldOf(f: SearchForm, c: Criterion): string
  {
    match c
    case Department => f.department
    case MinimumRating => f.rating
    case Course => f.course
    case Availability => f.availability
  }

  function ClauseText(c: Criterion, value: string): string
  {
    match c
    case Department => " in the " + value + " department"
    case MinimumRating => " with a minimum rating of " + value
    case Course => ", who teach " + value
    case Availability => ", and are available in " + value + "."
  }

  /** The clauses of the given criteria, each present only when its field is
      non-empty, in the given order. */
  function Clauses(f: SearchForm, cs: seq<Criterion>): string
  {
    if |cs| == 0 then ""
    else
      var value := FieldOf(f, cs[0]);
      (if value == "" then "" else ClauseText(cs[0], value)) + Clauses(f, cs[1..])
  }

  predicate NoCriteria(f: SearchForm)
  {
    f.department == "" && f.rating == "" && f.course == "" && f.availability == ""
  }

  /** `if (field) query += clause`. */
  function Extend(query: string, f: SearchForm, c: Criterion): string
  {
    var value := FieldOf(f, c);
    if value != "" then query + ClauseText(c, value) else query
  }

  /** The four conditional appends of `handleSubmit`, in source order. */
  function AppendClauses(f: SearchForm): string
  {
    var q1 := Extend(QueryBase, f, Department);
    var q2 := Extend(q1, f, MinimumRating);
    var q3 := Extend(q2, f, Course);
    Extend(q3, f, Availability)
  }

  lemma Regroup(q: string, c1: string, c2: string, c3: string, c4: string)
    ensures q + c1 + c2 + c3 + c4 == q + (c1 + (c2 + (c3 + (c4 + ""))))
  {
    assert c4 + "" == c4;
  }

  lemma ExtendAppendsClause(q: string, f: SearchForm, c: Criterion)
    ensures Extend(q, f, c) == q + (var v := FieldOf(f, c); if v == "" then "" else ClauseText(c, v))
  {
    if FieldOf(f, c) == "" {
      assert q + "" == q;
    }
  }

  /** The appended text is exactly the clause table read in criterion order. */
  lemma AppendClausesDecomposes(f: SearchForm)
    ensures AppendClauses(f) == QueryBase + Clauses(f, CriterionOrder)
  {
    var o1 := CriterionOrder[1..];
    var o2 := o1[1..];
    var o3 := o2[1..];
    ExtendAppendsClause(QueryBase, f, Department);
    var q1 := Extend(QueryBase, f, Department);
    ExtendAppendsClause(q1, f, MinimumRating);
    var q2 := Extend(q1, f, MinimumRating);
    ExtendAppendsClause(q2, f, Course);
    var q3 := Extend(q2, f, Course);
    ExtendAppendsClause(q3, f, Availability);
    var k1 := if f.department == "" then "" else ClauseText(Department, f.department);
    var k2 := if f.rating == "" then "" else ClauseText(MinimumRating, f.rating);
    var k3 := if f.course == "" then "" else ClauseText(Course, f.course);
    var k4 := if f.availability == "" then "" else ClauseText(Availability, f.availability);
    assert Clauses(f, o3[1..]) == "";
    assert Clauses(f, o3) == k4 + "";
    assert Clauses(f, o2) == k3 + (k4 + "");
    assert Clauses(f, o1) == k2 + (k3 + (k4 + ""));
    assert Clauses(f, CriterionOrder) == k1 + (k2 + (k3 + (k4 + "")));
    Regroup(QueryBase, k1, k2, k3, k4);
  }

  /** Appending a clause to the base sentence never yields the fallback. */
  lemma ClauseQueryIsNotFallback(x: string)
    requires |x| >= 2 && (x[0] == ',' || (x[0] == ' ' && x[1] != 'm'))
    ensures QueryBase + x != FallbackQuery
  {
    var q := QueryBase + x;
    assert q[15] == x[0] && q[16] == x[1];
    assert FallbackQuery[15] == ' ' && FallbackQuery[16] == 'm';
  }

  /** A non-empty clause list starts with a space followed by `i` or `w`, or
      with a comma: never with the fallback's " m". */
  lemma {:induction false} ClausesHead(f: SearchForm, cs: seq<Criterion>)
    ensures Clauses(f, cs) == "" <==> forall k :: 0 <= k < |cs| ==> FieldOf(f, cs[k]) == ""
    ensures Clauses(f, cs) != "" ==>
      |Clauses(f, cs)| >= 2
      && (Clauses(f, cs)[0] == ',' || (Clauses(f, cs)[0] == ' ' && Clauses(f, cs)[1] != 'm'))
  {
    if |cs| > 0 {
      ClausesHead(f, cs[1..]);
      var v := FieldOf(f, cs[0]);
      if v == "" {
        assert Clauses(f, cs) == Clauses(f, cs[1..]);
        assert forall k :: 1 <= k < |cs| ==> cs[k] == cs[1..][k - 1];
      } else {
        var head := ClauseText(cs[0], v);
        assert Clauses(f, cs) == head + Clauses(f, cs[1..]);
        assert |head| >= 2 && (head[0] == ',' || (head[0] == ' ' && head[1] != 'm'));
      }
    }
  }

  /** The criteria fields are all empty exactly when no clause is appended. */
  lemma NoCriteriaIffNoClauses(f: SearchForm)
    ensures Clauses(f, CriterionOrder) == "" <==> NoCriteria(f)
  {
    ClausesHead(f, CriterionOrder);
    var order := CriterionOrder;
    assert order[0] == Department && order[1] == MinimumRating;
    assert order[2] == Course && order[3] == Availability;
  }

  /** The appended query extends the base sentence, equals it exactly when no
      criterion is set, and is never the fallback sentence. */
  lemma AppendedQueryFacts(f: SearchForm)
    ensures QueryBase <= AppendClauses(f)
    ensures AppendClauses(f) == QueryBase <==> NoCriteria(f)
    ensures AppendClauses(f) != FallbackQuery
  {
    var x := Clauses(f, CriterionOrder);
    AppendClausesDecomposes(f);
    NoCriteriaIffNoClauses(f);
    ClausesHead(f, CriterionOrder);
    assert (QueryBase + x)[..|QueryBase|] == QueryBase;
    if x == "" {
      assert QueryBase + x == QueryBase;
      assert |QueryBase| != |FallbackQuery|;
    } else {
      ClauseQueryIsNotFallback(x);
    }
  }

  /** The query formatting of `handleSubmit`: start from the base sentence,
      append each clause whose field is non-empty, and fall back to a fixed
      sentence when nothing was appended. */
  function FormatQuery(f: SearchForm): (query: string)
    ensures QueryBase <= query
    ensures query == FallbackQuery <==> NoCriteria(f)
  {
    var query := AppendClauses(f);
    AppendedQueryFacts(f);
    assert QueryBase <= FallbackQuery;
    if query == QueryBase then FallbackQuery else query
  }

  /** The query is the base sentence followed by the clauses in the fixed
      order department, rating, course, availability; or the fallback
      sentence when none of the four fields is set. */
  lemma FormatQueryFollowsCriterionOrder(f: SearchForm)
    ensures NoCriteria(f) ==> FormatQuery(f) == FallbackQuery
    ensures !NoCriteria(f) ==> FormatQuery(f) == QueryBase + Clauses(f, CriterionOrder)
  {
    AppendClausesDecomposes(f);
  }

  /** The name, difficulty and tags fields never affect the query. */
  lemma QueryIgnoresUnusedFields(f: SearchForm, g: SearchForm)
    requires f.department == g.department && f.rating == g.rating
    requires f.course == g.course && f.availability == g.availability
    ensures FormatQuery(f) == FormatQuery(g)
  {
  }

  /** `handleSubmit`: every field is reset and `onSubmit` is called once, with
      the formatted query. */
  function HandleSubmit(f: SearchForm): (r: SubmitResult)
    ensures r.form == BlankForm
    ensures |r.submitted| == 1 && r.submitted[0] == FormatQuery(f)
    ensures QueryBase <= r.submitted[0]
  {
    SubmitResult(form := BlankForm, submitted := [FormatQuery(f)])
  }
}
