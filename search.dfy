/**
 * The clauses of the global search (`search`) and of the per-column search
 * (`searchByColumn`), with the closures of the latter written as methods that
 * build their own clause sequence.
 */
module Search {
  import opened Common
  import opened PhpStrings
  import opened Query
  import opened Request

  /** What a search step added, and whether it reports that a search occurred. */
  datatype Applied = Applied(clauses: seq<Clause>, occurred: bool)

  // ===========================================================================
  // Global search

  /** The terms kept from the pieces: each piece trimmed, and dropped when PHP's `empty` holds of it. */
  function KeptTerms(pieces: seq<string>): seq<string> {
    if pieces == [] then []
    else
      var term := Trim(pieces[|pieces| - 1], Whitespace);
      KeptTerms(pieces[..|pieces| - 1]) + (if !IsEmpty(term) then [term] else [])
  }

  /** `explode(' ', trim(v))`, then each term trimmed and the empty ones dropped. */
  function SearchTerms(v: string): seq<string> {
    KeptTerms(Explode(" ", Trim(v, Whitespace)))
  }

  /** One AND group `where(fn ($q) => $q->search($term))` per term, in order. */
  function TermGroups(terms: seq<string>): (r: seq<Clause>)
    ensures |r| == |terms|
    ensures forall i :: 0 <= i < |terms| ==> r[i] == Group(And, [SearchCall(terms[i])])
  {
    if terms == [] then []
    else TermGroups(terms[..|terms| - 1]) + [Group(And, [SearchCall(terms[|terms| - 1])])]
  }

  /**
   * `search()`: nothing when the value is PHP-empty (which includes "0"); an
   * error when the model has no search scope; otherwise one group per term, and
   * it reports a search even when no term survives.
   */
  function GlobalSearch(v: string, hasSearchScope: bool): (r: Result<Applied>)
    ensures r.Err? <==> !IsEmpty(v) && !hasSearchScope
    ensures r.Err? ==> r.error == MissingSearchScope
    ensures r.Ok? ==> r.value.occurred == !IsEmpty(v)
    ensures r.Ok? && !r.value.occurred ==> r.value.clauses == []
    ensures r.Ok? ==> forall c :: c in r.value.clauses ==> c.Group? && c.conj == And
  {
    if IsEmpty(v) then Ok(Applied([], false))
    else if !hasSearchScope then Err(MissingSearchScope)
    else Ok(Applied(TermGroups(SearchTerms(v)), true))
  }

  /** A term is a non-empty word: not "0", no space inside, no whitespace at either end. */
  ghost predicate IsTerm(t: string) {
    !IsEmpty(t) && ' ' !in t && t[0] !in Whitespace && t[|t| - 1] !in Whitespace
  }

  lemma {:induction false} KeptTermsAreTerms(pieces: seq<string>)
    requires forall k :: 0 <= k < |pieces| ==> ' ' !in pieces[k]
    ensures forall i :: 0 <= i < |KeptTerms(pieces)| ==> IsTerm(KeptTerms(pieces)[i])
  {
    if pieces != [] {
      var last := pieces[|pieces| - 1];
      KeptTermsAreTerms(pieces[..|pieces| - 1]);
      TrimShape(last, Whitespace);
      if ' ' in Trim(last, Whitespace) {
        TrimKeepsChars(last, Whitespace, ' ');
      }
    }
  }

  /** Every term the global search looks for is a non-empty word free of spaces. */
  lemma SearchTermsAreWords(v: string)
    ensures forall i :: 0 <= i < |SearchTerms(v)| ==> IsTerm(SearchTerms(v)[i])
  {
    var pieces := Explode(" ", Trim(v, Whitespace));
    ExplodePiecesFree(" ", Trim(v, Whitespace));
    forall k | 0 <= k < |pieces| ensures ' ' !in pieces[k] {
      ContainsChar(pieces[k], ' ');
    }
    KeptTermsAreTerms(pieces);
  }

  /** A value of blanks only is not PHP-empty: it reports a search but adds no clause. */
  lemma BlankSearchOccurs(v: string)
    requires v != "" && forall i :: 0 <= i < |v| ==> v[i] in Whitespace
    ensures GlobalSearch(v, true) == Ok(Applied([], true))
  {
    assert v[0] in Whitespace;
    assert !IsEmpty(v);
    assert SkipFrom(v, Whitespace, 0) == |v|;
    assert Trim(v, Whitespace) == "";
    assert Explode(" ", "") == [""];
    assert KeptTerms([""]) == KeptTerms([]) + [];
  }

  /** A piece of the global value survives when its trimmed text is not PHP-empty. */
  predicate KeepPiece(p: string) {
    !IsEmpty(Trim(p, Whitespace))
  }

  /** The kept terms are the trimmed surviving pieces, in order. */
  lemma {:induction false} KeptTermsSelected(pieces: seq<string>)
    ensures var idx := Selected(pieces, KeepPiece);
      && |KeptTerms(pieces)| == |idx|
      && forall k :: 0 <= k < |idx| ==> KeptTerms(pieces)[k] == Trim(pieces[idx[k]], Whitespace)
  {
    if pieces != [] {
      var init := pieces[..|pieces| - 1];
      var last := pieces[|pieces| - 1];
      KeptTermsSelected(init);
      var before := Selected(init, KeepPiece);
      var idx := Selected(pieces, KeepPiece);
      var terms := KeptTerms(pieces);
      var prev := KeptTerms(init);
      assert idx == before + (if KeepPiece(last) then [|pieces| - 1] else []);
      assert terms == prev + (if KeepPiece(last) then [Trim(last, Whitespace)] else []);
      forall k | 0 <= k < |idx| ensures terms[k] == Trim(pieces[idx[k]], Whitespace) {
        if k < |before| {
          assert idx[k] == before[k] && pieces[before[k]] == init[before[k]] && terms[k] == prev[k];
        }
      }
    }
  }

  /**
   * A global search with a search scope adds, for each piece of
   * `explode(' ', trim(v))` whose trimmed text is not PHP-empty and in the
   * order of the pieces, one AND group searching that trimmed text.
   */
  lemma GlobalSearchTerms(v: string)
    requires !IsEmpty(v)
    ensures var pieces := Explode(" ", Trim(v, Whitespace));
      var idx := Selected(pieces, KeepPiece);
      var r := GlobalSearch(v, true);
      && r.Ok? && r.value.occurred && |r.value.clauses| == |idx|
      && forall k :: 0 <= k < |idx| ==>
           r.value.clauses[k] == Group(And, [SearchCall(Trim(pieces[idx[k]], Whitespace))])
  {
    KeptTermsSelected(Explode(" ", Trim(v, Whitespace)));
  }

  // ===========================================================================
  // Per-column search: direct columns

  /** `! empty($v) || $v === '0'`: the column takes part in the search. */
  predicate HasColumnSearch(v: string)
    ensures HasColumnSearch(v) <==> v != ""
  {
    !IsEmpty(v) || v == "0"
  }

  /** `Str::startsWith($v, '|') && Str::endsWith($v, '|')`. */
  predicate IsExact(v: string)
    ensures IsExact(v) <==> |v| > 0 && v[0] == '|' && v[|v| - 1] == '|'
  {
    assert |v| > 0 ==> v[0..1] == [v[0]] && v[|v| - 1..|v|] == [v[|v| - 1]];
    StartsWith(v, "|") && EndsWith(v, "|")
  }

  /** `trim($v, '|')`: the value with every leading and trailing '|' removed. */
  function ExactValue(v: string): string {
    Trim(v, {'|'})
  }

  /** The exact-match value is `v` with its surrounding bars cut, and it neither starts nor ends with a bar. */
  lemma ExactValueShape(v: string)
    ensures TrimmedFrom(v, ExactValue(v), SkipFrom(v, {'|'}, 0), {'|'})
    ensures var inner := ExactValue(v); inner == [] || (inner[0] != '|' && inner[|inner| - 1] != '|')
  {
    TrimShape(v, {'|'});
  }

  /** The two sides of a date range: the text before the first delimiter, and the text after it up to the next one. */
  function DateSides(v: string, delimiter: string): (sides: (string, string))
    requires Contains(v, delimiter)
    ensures sides.0 <= v && !Contains(sides.0, delimiter)
    ensures OccursAt(v, delimiter, |sides.0|)
    ensures forall j :: 0 <= j < |sides.0| ==> !OccursAt(v, delimiter, j)
    ensures var rest := v[|sides.0| + |delimiter|..];
      && sides.1 <= rest
      && (forall j :: 0 <= j < |sides.1| ==> !OccursAt(rest, delimiter, j))
      && (sides.1 == rest || OccursAt(rest, delimiter, |sides.1|))
      && !Contains(sides.1, delimiter)
  {
    var pieces := Explode(delimiter, v);
    ExplodeFirst(delimiter, v);
    ExplodePiecesFree(delimiter, v);
    ExplodeSecond(delimiter, v);
    ExplodeFirst(delimiter, v[|pieces[0]| + |delimiter|..]);
    (pieces[0], pieces[1])
  }

  /** One side of a date range: nothing when PHP-empty, else a bound on the parsed date, or a parse failure. */
  function DateSide(table: string, column: string, side: string, bound: Bound, cfg: Config)
    : (r: Result<seq<Clause>>)
    ensures r.Err? <==> !IsEmpty(side) && cfg.parseDate(side).None?
    ensures r.Err? ==> r.error == BadDate(side)
    ensures r.Ok? ==> (r.value == [] <==> IsEmpty(side))
    ensures r.Ok? && r.value != [] ==>
      r.value == [DateBound(table, column, bound, cfg.parseDate(side).value)]
  {
    if IsEmpty(side) then Ok([])
    else
      match cfg.parseDate(side)
      case None => Err(BadDate(side))
      case Some(date) => Ok([DateBound(table, column, bound, date)])
  }

  /**
   * A date range on `table.column`: a lower bound from the first side when it is
   * not empty, then an upper bound from the second; any side that does not parse
   * fails the request.
   */
  function DateRangeClauses(table: string, column: string, v: string, cfg: Config)
    : (r: Result<seq<Clause>>)
    requires Contains(v, cfg.dateDelimiter)
    ensures r.Err? ==> r.error.BadDate?
  {
    var (from, to) := DateSides(v, cfg.dateDelimiter);
    match DateSide(table, column, from, AtLeast, cfg)
    case Err(e) => Err(e)
    case Ok(lower) =>
      match DateSide(table, column, to, AtMost, cfg)
      case Err(e) => Err(e)
      case Ok(upper) => Ok(lower + upper)
  }

  /**
   * A date range fails exactly when a non-empty side does not parse; otherwise
   * it bounds `table.column` once per non-empty side, the lower bound first.
   */
  lemma DateRangeShape(table: string, column: string, v: string, cfg: Config)
    requires Contains(v, cfg.dateDelimiter)
    ensures var r := DateRangeClauses(table, column, v, cfg);
            var (from, to) := DateSides(v, cfg.dateDelimiter);
      && (r.Err? <==> (!IsEmpty(from) && cfg.parseDate(from).None?) || (!IsEmpty(to) && cfg.parseDate(to).None?))
      && (r.Err? && !IsEmpty(from) && cfg.parseDate(from).None? ==> r.error == BadDate(from))
      && (r.Ok? ==> |r.value| == (if IsEmpty(from) then 0 else 1) + (if IsEmpty(to) then 0 else 1))
      && (r.Ok? && !IsEmpty(from) ==> r.value[0] == DateBound(table, column, AtLeast, cfg.parseDate(from).value))
      && (r.Ok? && !IsEmpty(to) ==>
            r.value[|r.value| - 1] == DateBound(table, column, AtMost, cfg.parseDate(to).value))
  {
    var (from, to) := DateSides(v, cfg.dateDelimiter);
    var lower := DateSide(table, column, from, AtLeast, cfg);
    var upper := DateSide(table, column, to, AtMost, cfg);
    if lower.Ok? && upper.Ok? {
      assert DateRangeClauses(table, column, v, cfg) == Ok(lower.value + upper.value);
    }
  }

  /** The five ways a search value on a direct column is read, in priority order. */
  datatype Shape = DateRange | NullMarker | ExactMatch | JsonText | PlainText

  function Classify(v: string, cfg: Config, isJson: bool): Shape {
    if Contains(v, cfg.dateDelimiter) then DateRange
    else if Contains(v, cfg.nullDelimiter) then NullMarker
    else if IsExact(v) then ExactMatch
    else if isJson then JsonText
    else PlainText
  }

  /** The body of the column's group for a field of the model's own table. */
  function DirectClauses(table: string, field: string, v: string, cfg: Config, isJson: bool)
    : (r: Result<seq<Clause>>)
    ensures r.Err? ==> r.error.BadDate? && Contains(v, cfg.dateDelimiter)
  {
    var column := Qualify(table, field);
    match Classify(v, cfg, isJson)
    case DateRange => DateRangeClauses(table, field, v, cfg)
    case NullMarker => Ok([Where(And, column, Eq, ""), WhereNull(Or, column)])
    case ExactMatch => Ok([Where(And, column, Eq, ExactValue(v))])
    case JsonText => Ok([JsonLike(column, Wrap(ToLower(v)))])
    case PlainText => Ok([Where(And, column, Like, Wrap(v))])
  }

  /**
   * A direct column gets exactly one reading: a date range whenever the date
   * delimiter occurs; else the null marker (empty or NULL) whenever the null
   * delimiter occurs; else, for a value wrapped in '|', equality with what is
   * inside the bars; else a lower-cased LIKE over a json column's values; else a
   * plain LIKE `%v%`.
   */
  lemma DirectClassification(table: string, field: string, v: string, cfg: Config, isJson: bool)
    ensures var column := Qualify(table, field);
            var r := DirectClauses(table, field, v, cfg, isJson);
      && (Contains(v, cfg.dateDelimiter) ==> r == DateRangeClauses(table, field, v, cfg))
      && (!Contains(v, cfg.dateDelimiter) && Contains(v, cfg.nullDelimiter) ==>
            r == Ok([Where(And, column, Eq, ""), WhereNull(Or, column)]))
      && (!Contains(v, cfg.dateDelimiter) && !Contains(v, cfg.nullDelimiter) && |v| > 0 && v[0] == '|' && v[|v| - 1] == '|' ==>
            r == Ok([Where(And, column, Eq, ExactValue(v))]))
      && (!Contains(v, cfg.dateDelimiter) && !Contains(v, cfg.nullDelimiter) && !(|v| > 0 && v[0] == '|' && v[|v| - 1] == '|') ==>
            r == Ok([if isJson then JsonLike(column, Wrap(ToLower(v))) else Where(And, column, Like, Wrap(v))]))
  {
    var column := Qualify(table, field);
    var r := DirectClauses(table, field, v, cfg, isJson);
    if Contains(v, cfg.dateDelimiter) {
      assert r == DateRangeClauses(table, field, v, cfg);
    } else if Contains(v, cfg.nullDelimiter) {
      assert r == Ok([Where(And, column, Eq, ""), WhereNull(Or, column)]);
    } else if IsExact(v) {
      assert r == Ok([Where(And, column, Eq, ExactValue(v))]);
    } else if isJson {
      assert r == Ok([JsonLike(column, Wrap(ToLower(v)))]);
    } else {
      assert r == Ok([Where(And, column, Like, Wrap(v))]);
    }
  }

  // ===========================================================================
  // Per-column search: relation columns

  /** The value and, when it holds a '/' or '-', the value with those two swapped. */
  function DateCandidates(v: string): (r: seq<string>)
    ensures 1 <= |r| <= 2 && r[0] == v
    ensures |r| == 2 <==> SwapSeparators(v) != v
    ensures |r| == 2 ==> r[1] == SwapSeparators(v) && SwapSeparators(r[1]) == v
  {
    ContainsChar(v, '/');
    ContainsChar(v, '-');
    SwapChanges(v);
    SwapInvolution(v);
    if Contains(v, "/") || Contains(v, "-") then [v, SwapSeparators(v)] else [v]
  }

  /** The driver's expression rendering `column` in the SQL date format. */
  function DisplayExpr(driver: Driver, format: string, column: string): DateExpr {
    match driver
    case Sqlite => Strftime(format, column)
    case OtherDriver => DateFormat(column, format)
  }

  /** Two OR clauses per candidate: LIKE on the raw column, then LIKE on the formatted date. */
  function DateLikeClauses(column: string, expr: DateExpr, candidates: seq<string>): seq<Clause> {
    if candidates == [] then []
    else
      var c := candidates[|candidates| - 1];
      DateLikeClauses(column, expr, candidates[..|candidates| - 1])
        + [Where(Or, column, Like, Wrap(c)), DateExprLike(expr, Wrap(c))]
  }

  /** One OR LIKE per field name: the list leaf of a nested relation. */
  function AnyLikeClauses(names: seq<string>, v: string): (r: seq<Clause>)
    ensures |r| == |names|
    ensures forall i :: 0 <= i < |names| ==> r[i] == Where(Or, names[i], Like, Wrap(v))
  {
    if names == [] then []
    else AnyLikeClauses(names[..|names| - 1], v) + [Where(Or, names[|names| - 1], Like, Wrap(v))]
  }

  /** The body of `whereHas($through, …)` for a nested sub-field. */
  function LeafClauses(leaf: Leaf, v: string): seq<Clause> {
    match leaf
    case LeafField(name) => [Where(And, name, Like, Wrap(v))]
    case LeafFields(names) => [Group(And, AnyLikeClauses(names, v))]
  }

  /** What one declared sub-field adds inside the relation's OR group. */
  function SubFieldClauses(other: string, sf: SubField, v: string, cfg: Config, driver: Driver)
    : (r: Result<seq<Clause>>)
    ensures r.Err? ==> r.error.BadDate? && Contains(v, cfg.dateDelimiter)
  {
    match sf
    case Plain(name) =>
      var column := Qualify(other, name);
      if Contains(v, cfg.dateDelimiter) then DateRangeClauses(other, name, v, cfg)
      else if IsExact(v) then Ok([Where(Or, column, Eq, ExactValue(v))])
      else if name in cfg.dateColumns then
        Ok(DateLikeClauses(column, DisplayExpr(driver, SqlDateFormat(cfg.displayFormat), column), DateCandidates(v)))
      else Ok([Where(Or, column, Like, Wrap(v))])
    case Nested(through, leaf) => Ok([WhereHas(through.name, LeafClauses(leaf, v))])
  }

  /** The loop over the declared sub-fields; the first failure ends it. */
  function SubFieldsClauses(other: string, fields: seq<SubField>, v: string, cfg: Config, driver: Driver)
    : (r: Result<seq<Clause>>)
    ensures r.Err? ==> r.error.BadDate? && Contains(v, cfg.dateDelimiter)
  {
    if fields == [] then Ok([])
    else
      match SubFieldsClauses(other, fields[..|fields| - 1], v, cfg, driver)
      case Err(e) => Err(e)
      case Ok(init) =>
        match SubFieldClauses(other, fields[|fields| - 1], v, cfg, driver)
        case Err(e) => Err(e)
        case Ok(last) => Ok(init + last)
  }

  /**
   * A declared sub-field gets exactly one reading. A plain one: the date-range
   * bounds on it whenever the date delimiter occurs; else an OR equality with
   * what is inside the bars; else, for a date column, the LIKEs over the date
   * candidates; else an OR LIKE `%v%`. A nested one: a `whereHas` on its
   * through-relation around its leaf's clauses.
   */
  lemma SubFieldClassification(other: string, sf: SubField, v: string, cfg: Config, driver: Driver)
    ensures var r := SubFieldClauses(other, sf, v, cfg, driver);
      && (sf.Plain? ==>
        var name := sf.name;
        var column := Qualify(other, name);
        && (Contains(v, cfg.dateDelimiter) ==> r == DateRangeClauses(other, name, v, cfg))
        && (!Contains(v, cfg.dateDelimiter) && |v| > 0 && v[0] == '|' && v[|v| - 1] == '|' ==>
              r == Ok([Where(Or, column, Eq, ExactValue(v))]))
        && (!Contains(v, cfg.dateDelimiter) && !(|v| > 0 && v[0] == '|' && v[|v| - 1] == '|') && name in cfg.dateColumns ==>
              r == Ok(DateLikeClauses(column, DisplayExpr(driver, SqlDateFormat(cfg.displayFormat), column), DateCandidates(v))))
        && (!Contains(v, cfg.dateDelimiter) && !(|v| > 0 && v[0] == '|' && v[|v| - 1] == '|') && name !in cfg.dateColumns ==>
              r == Ok([Where(Or, column, Like, Wrap(v))])))
      && (sf.Nested? ==> r == Ok([WhereHas(sf.through.name, LeafClauses(sf.leaf, v))]))
  {
  }

  /** Running one clause-building step after another: the first error wins, else the clauses concatenate. */
  function Then(x: Result<seq<Clause>>, y: Result<seq<Clause>>): Result<seq<Clause>> {
    match x
    case Err(_) => x
    case Ok(a) =>
      match y
      case Err(_) => y
      case Ok(b) => Ok(a + b)
  }

  lemma ThenAssoc(x: Result<seq<Clause>>, y: Result<seq<Clause>>, z: Result<seq<Clause>>)
    ensures Then(Then(x, y), z) == Then(x, Then(y, z))
  {
    if x.Ok? && y.Ok? && z.Ok? {
      assert x.value + y.value + z.value == x.value + (y.value + z.value);
    }
  }

  /** The loop over one more sub-field runs that sub-field after the others. */
  lemma SubFieldsStep(other: string, fields: seq<SubField>, v: string, cfg: Config, driver: Driver)
    requires fields != []
    ensures SubFieldsClauses(other, fields, v, cfg, driver)
      == Then(SubFieldsClauses(other, fields[..|fields| - 1], v, cfg, driver),
              SubFieldClauses(other, fields[|fields| - 1], v, cfg, driver))
  {
  }

  /** The sub-field loop over `a + b` runs over `a`, then over `b`: it stops at the first error, else it concatenates. */
  lemma {:induction false} SubFieldsAppend(other: string, a: seq<SubField>, b: seq<SubField>, v: string, cfg: Config, driver: Driver)
    ensures SubFieldsClauses(other, a + b, v, cfg, driver)
      == Then(SubFieldsClauses(other, a, v, cfg, driver), SubFieldsClauses(other, b, v, cfg, driver))
    decreases |b|
  {
    var ra := SubFieldsClauses(other, a, v, cfg, driver);
    if b == [] {
      assert a + b == a;
      if ra.Ok? {
        assert ra.value + [] == ra.value;
      }
    } else {
      var init := b[..|b| - 1];
      var last := b[|b| - 1];
      assert (a + b)[..|a + b| - 1] == a + init && (a + b)[|a + b| - 1] == last;
      var ri := SubFieldsClauses(other, init, v, cfg, driver);
      var rl := SubFieldClauses(other, last, v, cfg, driver);
      SubFieldsStep(other, a + b, v, cfg, driver);
      SubFieldsAppend(other, a, init, v, cfg, driver);
      SubFieldsStep(other, b, v, cfg, driver);
      ThenAssoc(ra, ri, rl);
    }
  }

  /** The loop over one sub-field is that sub-field's reading. */
  lemma SubFieldsSingle(other: string, sf: SubField, v: string, cfg: Config, driver: Driver)
    ensures SubFieldsClauses(other, [sf], v, cfg, driver) == SubFieldClauses(other, sf, v, cfg, driver)
  {
    assert [sf][..0] == [];
    var r := SubFieldClauses(other, sf, v, cfg, driver);
    if r.Ok? {
      assert [] + r.value == r.value;
    }
  }

  /** Around sub-field `i`, the loop runs the sub-fields before it, then it, then the ones after it. */
  lemma SubFieldsSplit(other: string, fields: seq<SubField>, i: nat, v: string, cfg: Config, driver: Driver)
    requires i < |fields|
    ensures SubFieldsClauses(other, fields, v, cfg, driver)
      == Then(Then(SubFieldsClauses(other, fields[..i], v, cfg, driver), SubFieldClauses(other, fields[i], v, cfg, driver)),
              SubFieldsClauses(other, fields[i + 1..], v, cfg, driver))
  {
    var before, after := fields[..i], fields[i + 1..];
    assert fields == (before + [fields[i]]) + after;
    SubFieldsAppend(other, before + [fields[i]], after, v, cfg, driver);
    SubFieldsAppend(other, before, [fields[i]], v, cfg, driver);
    SubFieldsSingle(other, fields[i], v, cfg, driver);
  }

  /**
   * The sub-field loop succeeds exactly when every sub-field does; when it
   * fails, it fails with the error of the first sub-field that fails.
   */
  lemma {:induction false} SubFieldsEach(other: string, fields: seq<SubField>, v: string, cfg: Config, driver: Driver)
    ensures var r := SubFieldsClauses(other, fields, v, cfg, driver);
      && (r.Ok? <==> forall i :: 0 <= i < |fields| ==> SubFieldClauses(other, fields[i], v, cfg, driver).Ok?)
      && (r.Err? ==> exists i :: (0 <= i < |fields|
            && SubFieldsClauses(other, fields[..i], v, cfg, driver).Ok?
            && SubFieldClauses(other, fields[i], v, cfg, driver) == Err(r.error)))
  {
    if fields != [] {
      var n := |fields| - 1;
      var init := fields[..n];
      var r := SubFieldsClauses(other, fields, v, cfg, driver);
      var ri := SubFieldsClauses(other, init, v, cfg, driver);
      var rl := SubFieldClauses(other, fields[n], v, cfg, driver);
      SubFieldsStep(other, fields, v, cfg, driver);
      assert r == Then(ri, rl);
      SubFieldsEach(other, init, v, cfg, driver);
      assert forall i :: 0 <= i < n ==> init[i] == fields[i];
      if ri.Err? {
        var i :| 0 <= i < n && SubFieldsClauses(other, init[..i], v, cfg, driver).Ok?
          && SubFieldClauses(other, init[i], v, cfg, driver) == Err(ri.error);
        assert init[..i] == fields[..i];
      } else if rl.Err? {
        assert SubFieldsClauses(other, fields[..n], v, cfg, driver).Ok?;
      }
    }
  }

  /** Candidate `i` gives clauses `2i` (LIKE on the raw column) and `2i + 1` (LIKE on the formatted date). */
  lemma {:induction false} DateLikeClausesAt(column: string, expr: DateExpr, candidates: seq<string>)
    ensures |DateLikeClauses(column, expr, candidates)| == 2 * |candidates|
    ensures forall i :: 0 <= i < |candidates| ==>
      DateLikeClauses(column, expr, candidates)[2 * i] == Where(Or, column, Like, Wrap(candidates[i]))
      && DateLikeClauses(column, expr, candidates)[2 * i + 1] == DateExprLike(expr, Wrap(candidates[i]))
  {
    if candidates != [] {
      var init := candidates[..|candidates| - 1];
      DateLikeClausesAt(column, expr, init);
      var r := DateLikeClauses(column, expr, candidates);
      var before := DateLikeClauses(column, expr, init);
      forall i | 0 <= i < |candidates|
        ensures r[2 * i] == Where(Or, column, Like, Wrap(candidates[i]))
        ensures r[2 * i + 1] == DateExprLike(expr, Wrap(candidates[i]))
      {
        if i < |init| {
          assert r[2 * i] == before[2 * i] && r[2 * i + 1] == before[2 * i + 1];
        }
      }
    }
  }

  /**
   * For a relation date column, each candidate spelling adds exactly two OR
   * clauses, on the qualified column and on its formatted date.
   */
  lemma RelationDateColumn(other: string, name: string, v: string, cfg: Config, driver: Driver)
    requires !Contains(v, cfg.dateDelimiter) && !IsExact(v) && name in cfg.dateColumns
    ensures var column := Qualify(other, name);
      SubFieldClauses(other, Plain(name), v, cfg, driver)
        == Ok(DateLikeClauses(column, DisplayExpr(driver, SqlDateFormat(cfg.displayFormat), column), DateCandidates(v)))
    ensures |SubFieldClauses(other, Plain(name), v, cfg, driver).value| == 2 * |DateCandidates(v)|
    ensures forall c :: c in SubFieldClauses(other, Plain(name), v, cfg, driver).value ==>
      (c.Where? && c.conj == Or && c.op == Like) || c.DateExprLike?
  {
    var column := Qualify(other, name);
    var expr := DisplayExpr(driver, SqlDateFormat(cfg.displayFormat), column);
    var r := DateLikeClauses(column, expr, DateCandidates(v));
    DateLikeClausesAt(column, expr, DateCandidates(v));
    assert SubFieldClauses(other, Plain(name), v, cfg, driver) == Ok(r);
    DateLikeKinds(column, expr, DateCandidates(v));
  }

  lemma {:induction false} DateLikeKinds(column: string, expr: DateExpr, candidates: seq<string>)
    ensures forall c :: c in DateLikeClauses(column, expr, candidates) ==>
      (c.Where? && c.conj == Or && c.op == Like) || c.DateExprLike?
  {
    if candidates != [] {
      DateLikeKinds(column, expr, candidates[..|candidates| - 1]);
    }
  }

  /** The clauses of a MorphTo target: the first field with AND, the others with OR. */
  function MorphFieldClauses(fields: seq<string>, v: string): (r: seq<Clause>)
    ensures |r| == |fields|
    ensures forall i :: 0 <= i < |fields| ==>
      r[i] == Where(if i == 0 then And else Or, fields[i], Like, Wrap(v))
  {
    if fields == [] then []
    else
      MorphFieldClauses(fields[..|fields| - 1], v)
        + [Where(if |fields| == 1 then And else Or, fields[|fields| - 1], Like, Wrap(v))]
  }

  /** One `orWhereHasMorph` per declared target. */
  function MorphClauses(field: string, targets: seq<MorphTarget>, v: string): (r: seq<Clause>)
    ensures |r| == |targets|
    ensures forall i :: 0 <= i < |targets| ==>
      r[i] == OrWhereHasMorph(field, targets[i].models, MorphFieldClauses(targets[i].fields, v))
  {
    if targets == [] then []
    else
      var t := targets[|targets| - 1];
      MorphClauses(field, targets[..|targets| - 1], v)
        + [OrWhereHasMorph(field, t.models, MorphFieldClauses(t.fields, v))]
  }

  /**
   * The body of the column's group for a relation field: "no related row" for
   * the null marker, else one `whereHas` around the OR group of the sub-fields;
   * for MorphTo, an AND group of the targets' `orWhereHasMorph`.
   */
  function RelationClauses(field: string, rel: Relation, v: string, cfg: Config, driver: Driver)
    : (r: Result<seq<Clause>>)
    ensures r.Err? ==> r.error.BadDate? && Contains(v, cfg.dateDelimiter)
  {
    match rel
    case Related(_, other, fields) =>
      if Contains(v, cfg.nullDelimiter) then Ok([WhereDoesntHave(field)])
      else
        (match SubFieldsClauses(other, fields, v, cfg, driver)
         case Err(e) => Err(e)
         case Ok(body) => Ok([WhereHas(field, [Group(And, body)])]))
    case MorphTo(targets) => Ok([Group(And, MorphClauses(field, targets, v))])
  }

  /**
   * A relation column gets exactly one reading: "no related row" whenever the
   * null marker occurs; else one `whereHas` around the AND group of its
   * sub-fields' clauses, or the first sub-field's error; for MorphTo, the AND
   * group of the targets' `orWhereHasMorph`.
   */
  lemma RelationClassification(field: string, rel: Relation, v: string, cfg: Config, driver: Driver)
    ensures var r := RelationClauses(field, rel, v, cfg, driver);
      && (rel.Related? ==>
        var sub := SubFieldsClauses(rel.table, rel.fields, v, cfg, driver);
        && (Contains(v, cfg.nullDelimiter) ==> r == Ok([WhereDoesntHave(field)]))
        && (!Contains(v, cfg.nullDelimiter) && sub.Ok? ==> r == Ok([WhereHas(field, [Group(And, sub.value)])]))
        && (!Contains(v, cfg.nullDelimiter) && sub.Err? ==> r == Err(sub.error)))
      && (rel.MorphTo? ==> r == Ok([Group(And, MorphClauses(field, rel.targets, v))]))
  {
  }

  /** The one AND group a searched column adds. */
  function ColumnClauses(col: Column, table: string, relations: map<string, Relation>,
                         jsonColumns: set<string>, cfg: Config, driver: Driver)
    : (r: Result<seq<Clause>>)
    ensures r.Err? ==> r.error.BadDate? && Contains(col.search, cfg.dateDelimiter)
    ensures r.Ok? ==> |r.value| == 1 && r.value[0].Group? && r.value[0].conj == And
  {
    var field := FieldName(col.data);
    var body :=
      if field in relations then RelationClauses(field, relations[field], col.search, cfg, driver)
      else DirectClauses(table, field, col.search, cfg, field in jsonColumns);
    match body
    case Err(e) => Err(e)
    case Ok(b) => Ok([Group(And, b)])
  }

  /**
   * `searchByColumn()`: one AND group per column whose search value is not "",
   * in column order. It reports a search exactly when some column has one, and
   * it can fail only on a date range that does not parse.
   */
  function ColumnSearch(cols: seq<Column>, table: string, relations: map<string, Relation>,
                        jsonColumns: set<string>, cfg: Config, driver: Driver)
    : (r: Result<Applied>)
    ensures r.Err? ==> r.error.BadDate?
    ensures r.Ok? ==> forall c :: c in r.value.clauses ==> c.Group? && c.conj == And
    ensures r.Ok? && !r.value.occurred ==> r.value.clauses == []
  {
    if cols == [] then Ok(Applied([], false))
    else
      var init := cols[..|cols| - 1];
      var last := cols[|cols| - 1];
      match ColumnSearch(init, table, relations, jsonColumns, cfg, driver)
      case Err(e) => Err(e)
      case Ok(before) =>
        if !HasColumnSearch(last.search) then Ok(before)
        else
          match ColumnClauses(last, table, relations, jsonColumns, cfg, driver)
          case Err(e) => Err(e)
          case Ok(group) => Ok(Applied(before.clauses + group, true))
  }

  // ===========================================================================
  // The closures, as they build their clause sequences

  /** `foreach ($searchValues as $value)` for a relation date column. */
  method DateLike(column: string, expr: DateExpr, candidates: seq<string>) returns (query: seq<Clause>)
    ensures query == DateLikeClauses(column, expr, candidates)
  {
    query := [];
    var i := 0;
    while i < |candidates|
      invariant 0 <= i <= |candidates|
      invariant query == DateLikeClauses(column, expr, candidates[..i])
    {
      DateLikeStep(column, expr, candidates, i);
      var raw := Where(Or, column, Like, Wrap(candidates[i]));
      var formatted := DateExprLike(expr, Wrap(candidates[i]));
      assert query + [raw] + [formatted] == query + [raw, formatted];
      query := query + [raw];
      query := query + [formatted];
      i := i + 1;
    }
    assert candidates[..i] == candidates;
  }

  lemma DateLikeStep(column: string, expr: DateExpr, candidates: seq<string>, i: nat)
    requires i < |candidates|
    ensures DateLikeClauses(column, expr, candidates[..i + 1])
      == DateLikeClauses(column, expr, candidates[..i])
         + [Where(Or, column, Like, Wrap(candidates[i])), DateExprLike(expr, Wrap(candidates[i]))]
  {
    assert candidates[..i + 1][..i] == candidates[..i];
  }

  /** `foreach ($otherField[1] as $otherFieldItem)`: the list leaf of a nested relation. */
  method AnyLike(names: seq<string>, v: string) returns (query: seq<Clause>)
    ensures query == AnyLikeClauses(names, v)
  {
    query := [];
    var i := 0;
    while i < |names|
      invariant 0 <= i <= |names|
      invariant query == AnyLikeClauses(names[..i], v)
    {
      assert names[..i + 1][..i] == names[..i];
      query := query + [Where(Or, names[i], Like, Wrap(v))];
      i := i + 1;
    }
    assert names[..i] == names;
  }

  /** The closure inside `whereHas($field, …)`: the loop over the relation's declared sub-fields. */
  method SubFieldGroup(other: string, fields: seq<SubField>, v: string, cfg: Config, driver: Driver)
    returns (r: Result<seq<Clause>>)
    ensures r == SubFieldsClauses(other, fields, v, cfg, driver)
  {
    var query: seq<Clause> := [];
    var i := 0;
    while i < |fields|
      invariant 0 <= i <= |fields|
      invariant SubFieldsClauses(other, fields[..i], v, cfg, driver) == Ok(query)
    {
      assert fields[..i + 1][..i] == fields[..i];
      var added: seq<Clause>;
      match fields[i] {
        case Plain(name) =>
          var column := Qualify(other, name);
          if Contains(v, cfg.dateDelimiter) {
            var bounds := DateRangeClauses(other, name, v, cfg);
            if bounds.Err? {
              assert SubFieldsClauses(other, fields[..i + 1], v, cfg, driver) == bounds;
              FailureStops(other, fields, i + 1, v, cfg, driver);
              return bounds;
            }
            added := bounds.value;
          } else if IsExact(v) {
            added := [Where(Or, column, Eq, ExactValue(v))];
          } else if name in cfg.dateColumns {
            var format := SqlDateFormat(cfg.displayFormat);
            added := DateLike(column, DisplayExpr(driver, format, column), DateCandidates(v));
          } else {
            added := [Where(Or, column, Like, Wrap(v))];
          }
        case Nested(through, leaf) =>
          var inner: seq<Clause>;
          match leaf {
            case LeafField(name) =>
              inner := [Where(And, name, Like, Wrap(v))];
            case LeafFields(names) =>
              var any := AnyLike(names, v);
              inner := [Group(And, any)];
          }
          added := [WhereHas(through.name, inner)];
      }
      assert SubFieldClauses(other, fields[i], v, cfg, driver) == Ok(added);
      query := query + added;
      i := i + 1;
    }
    assert fields[..i] == fields;
    r := Ok(query);
  }

  /** Once a sub-field fails, the whole loop fails with that same error. */
  lemma {:induction false} FailureStops(other: string, fields: seq<SubField>, k: nat, v: string, cfg: Config, driver: Driver)
    requires k <= |fields|
    requires SubFieldsClauses(other, fields[..k], v, cfg, driver).Err?
    ensures SubFieldsClauses(other, fields, v, cfg, driver) == SubFieldsClauses(other, fields[..k], v, cfg, driver)
    decreases |fields| - k
  {
    if k < |fields| {
      assert fields[..k + 1][..k] == fields[..k];
      FailureStops(other, fields, k + 1, v, cfg, driver);
    } else {
      assert fields[..k] == fields;
    }
  }

  /** `foreach ($otherField['fields'] as $morphFieldKey => $morphField)`. */
  method MorphFields(fields: seq<string>, v: string) returns (query: seq<Clause>)
    ensures query == MorphFieldClauses(fields, v)
  {
    query := [];
    var i := 0;
    while i < |fields|
      invariant 0 <= i <= |fields|
      invariant query == MorphFieldClauses(fields[..i], v)
    {
      assert fields[..i + 1][..i] == fields[..i];
      query := query + [Where(if i == 0 then And else Or, fields[i], Like, Wrap(v))];
      i := i + 1;
    }
    assert fields[..i] == fields;
  }

  /** The MorphTo closure: one `orWhereHasMorph` per declared target. */
  method MorphGroup(field: string, targets: seq<MorphTarget>, v: string) returns (query: seq<Clause>)
    ensures query == MorphClauses(field, targets, v)
  {
    query := [];
    var i := 0;
    while i < |targets|
      invariant 0 <= i <= |targets|
      invariant query == MorphClauses(field, targets[..i], v)
    {
      assert targets[..i + 1][..i] == targets[..i];
      var body := MorphFields(targets[i].fields, v);
      query := query + [OrWhereHasMorph(field, targets[i].models, body)];
      i := i + 1;
    }
    assert targets[..i] == targets;
  }

  /** The closure `searchByColumn` passes to `where` for one searched column. */
  method ColumnGroup(col: Column, table: string, relations: map<string, Relation>,
                     jsonColumns: set<string>, cfg: Config, driver: Driver)
    returns (r: Result<seq<Clause>>)
    ensures r == ColumnClauses(col, table, relations, jsonColumns, cfg, driver)
  {
    var field := FieldName(col.data);
    var v := col.search;
    var body: Result<seq<Clause>>;
    if field !in relations {
      body := DirectClauses(table, field, v, cfg, field in jsonColumns);
    } else {
      match relations[field] {
        case Related(_, other, fields) =>
          if Contains(v, cfg.nullDelimiter) {
            body := Ok([WhereDoesntHave(field)]);
          } else {
            var group := SubFieldGroup(other, fields, v, cfg, driver);
            if group.Err? {
              return Err(group.error);
            }
            body := Ok([WhereHas(field, [Group(And, group.value)])]);
          }
        case MorphTo(targets) =>
          var morphs := MorphGroup(field, targets, v);
          body := Ok([Group(And, morphs)]);
      }
    }
    if body.Err? {
      return Err(body.error);
    }
    r := Ok([Group(And, body.value)]);
  }

  /** A column takes part in the column search when its search value is not "". */
  predicate KeepColumn(c: Column) {
    HasColumnSearch(c.search)
  }

  /**
   * A column search that succeeds holds exactly one clause per searched column,
   * in column order: the AND group that column's search builds.
   */
  lemma {:induction false} ColumnSearchSelected(cols: seq<Column>, table: string, relations: map<string, Relation>,
                                                jsonColumns: set<string>, cfg: Config, driver: Driver)
    requires ColumnSearch(cols, table, relations, jsonColumns, cfg, driver).Ok?
    ensures var idx := Selected(cols, KeepColumn);
      var clauses := ColumnSearch(cols, table, relations, jsonColumns, cfg, driver).value.clauses;
      && |clauses| == |idx|
      && forall k :: 0 <= k < |idx| ==>
           var group := ColumnClauses(cols[idx[k]], table, relations, jsonColumns, cfg, driver);
           group.Ok? && clauses[k] == group.value[0]
  {
    if cols != [] {
      var init := cols[..|cols| - 1];
      var last := cols[|cols| - 1];
      var clauses := ColumnSearch(cols, table, relations, jsonColumns, cfg, driver).value.clauses;
      ColumnSearchStep(cols, table, relations, jsonColumns, cfg, driver);
      var prev := ColumnSearch(init, table, relations, jsonColumns, cfg, driver).value.clauses;
      ColumnSearchSelected(init, table, relations, jsonColumns, cfg, driver);
      var before := Selected(init, KeepColumn);
      var idx := Selected(cols, KeepColumn);
      assert idx == before + (if KeepColumn(last) then [|cols| - 1] else []);
      forall k | 0 <= k < |idx|
        ensures var group := ColumnClauses(cols[idx[k]], table, relations, jsonColumns, cfg, driver);
          group.Ok? && clauses[k] == group.value[0]
      {
        if k < |before| {
          assert idx[k] == before[k] && cols[before[k]] == init[before[k]] && clauses[k] == prev[k];
        } else {
          var group := ColumnClauses(last, table, relations, jsonColumns, cfg, driver);
          assert idx[k] == |cols| - 1 && k == |prev|;
          assert clauses == prev + group.value;
        }
      }
    }
  }

  /** The column search over one more column, in terms of the search over the others. */
  lemma ColumnSearchStep(cols: seq<Column>, table: string, relations: map<string, Relation>,
                         jsonColumns: set<string>, cfg: Config, driver: Driver)
    requires cols != [] && ColumnSearch(cols, table, relations, jsonColumns, cfg, driver).Ok?
    ensures var init := cols[..|cols| - 1];
      var last := cols[|cols| - 1];
      var prev := ColumnSearch(init, table, relations, jsonColumns, cfg, driver);
      var group := ColumnClauses(last, table, relations, jsonColumns, cfg, driver);
      && prev.Ok?
      && (KeepColumn(last) ==> group.Ok? && ColumnSearch(cols, table, relations, jsonColumns, cfg, driver).value.clauses
                                               == prev.value.clauses + group.value)
      && (!KeepColumn(last) ==> ColumnSearch(cols, table, relations, jsonColumns, cfg, driver).value.clauses
                                  == prev.value.clauses)
  {
  }

  /**
   * The column search reports a search exactly when some column's value is not
   * "", adds at most one group per column, and fails only on a column whose value
   * holds the date delimiter.
   */
  lemma {:induction false} ColumnSearchShape(cols: seq<Column>, table: string, relations: map<string, Relation>,
                                             jsonColumns: set<string>, cfg: Config, driver: Driver)
    ensures var r := ColumnSearch(cols, table, relations, jsonColumns, cfg, driver);
      && (r.Err? ==> exists i :: 0 <= i < |cols| && cols[i].search != "" && Contains(cols[i].search, cfg.dateDelimiter))
      && (r.Ok? ==> (r.value.occurred <==> exists i :: 0 <= i < |cols| && cols[i].search != ""))
      && (r.Ok? ==> |r.value.clauses| <= |cols|)
  {
    if cols != [] {
      var init := cols[..|cols| - 1];
      var last := cols[|cols| - 1];
      ColumnSearchShape(init, table, relations, jsonColumns, cfg, driver);
      assert forall i :: 0 <= i < |init| ==> init[i] == cols[i];
      var before := ColumnSearch(init, table, relations, jsonColumns, cfg, driver);
      if before.Ok? && HasColumnSearch(last.search) {
        var group := ColumnClauses(last, table, relations, jsonColumns, cfg, driver);
        if group.Err? {
          assert cols[|cols| - 1].search != "" && Contains(cols[|cols| - 1].search, cfg.dateDelimiter);
        } else {
          assert cols[|cols| - 1].search != "";
        }
      }
    }
  }
}
