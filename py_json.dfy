/**
  Decoded JSON documents and the handful of Python operations the parsers
  apply to them (`d.get(k, default)`, `k in o`, `o[k]`, `o[i]`, `o[i:]`,
  `len(o)`, truthiness, iteration, `str.lower()`, `float(o)`), each giving
  the value Python computes or the exception it raises.

  Generators are modelled by what they yield: a `Run` is the part of a
  generator body executed so far (items yielded and the exception that cut
  it short, if any); a `Gen` is the whole generator after the body's
  `try`/`except`, as `list(...)` sees it.
*/
module PyJson {
  import opened PyCore

  /** A value produced by `json.load`. Objects keep their (key, value) pairs in
      file order; numbers are not split into int and float. */
  datatype Json =
    | JNull
    | JBool(b: bool)
    | JNum(n: real)
    | JStr(s: string)
    | JArr(items: seq<Json>)
    | JObj(fields: seq<(string, Json)>)

  /** The value bound to `k`; `json.load` keeps the last binding of a repeated key. */
  function Lookup(fields: seq<(string, Json)>, k: string): (r: Option<Json>)
    ensures r.Some? <==> exists i :: 0 <= i < |fields| && fields[i].0 == k
  {
    if fields == [] then None
    else if fields[|fields| - 1].0 == k then Some(fields[|fields| - 1].1)
    else
      var r := Lookup(fields[..|fields| - 1], k);
      assert forall i :: 0 <= i < |fields| - 1 ==> fields[..|fields| - 1][i] == fields[i];
      r
  }

  /** The keys of a decoded object, each once, in first-insertion order. */
  function Keys(fields: seq<(string, Json)>): (ks: seq<string>)
    ensures |ks| <= |fields|
    ensures ks == [] <==> fields == []
  {
    if fields == [] then []
    else
      var front := Keys(fields[..|fields| - 1]);
      var k := fields[|fields| - 1].0;
      if k in front then front else front + [k]
  }

  /** `json.load(open(path))`: the decoded value or the exception raised. */
  function LoadJson(load: Load<Json>): (r: Result<Json>)
    ensures load.Decoded? <==> r.Ok?
  {
    match load
    case NotFound => Err(FileNotFoundError)
    case Undecodable => Err(JSONDecodeError)
    case Decoded(d) => Ok(d)
  }

  // ---------------------------------------------------------------------
  // Python operations on decoded values
  // ---------------------------------------------------------------------

  /** `o.get(k, default)`: only dicts have `get`. */
  function DictGet(o: Json, k: string, default: Json): Result<Json>
  {
    if !o.JObj? then Err(TypeError)
    else
      match Lookup(o.fields, k)
      case Some(v) => Ok(v)
      case None => Ok(default)
  }

  /** `k in o` for a string `k`: key test on a dict, element test on a list,
      substring test on a string. */
  function Contains(o: Json, k: string): Result<bool>
  {
    match o
    case JObj(fields) => Ok(Lookup(fields, k).Some?)
    case JArr(items) => Ok(JStr(k) in items)
    case JStr(s) => Ok(IsSubstring(k, s))
    case _ => Err(TypeError)
  }

  /** `k` occurs in `s` at some position. */
  predicate IsSubstring(k: string, s: string)
  {
    k <= s || (s != [] && IsSubstring(k, s[1..]))
  }

  /** `o[k]` for a string key. */
  function Item(o: Json, k: string): Result<Json>
  {
    match o
    case JObj(fields) =>
      (match Lookup(fields, k)
       case Some(v) => Ok(v)
       case None => Err(KeyError))
    case _ => Err(TypeError)
  }

  /** `o[i]` for an integer index `i >= 0`; a decoded dict has only string
      keys, so an integer subscript is a missing key. */
  function At(o: Json, i: nat): Result<Json>
  {
    match o
    case JArr(items) => if i < |items| then Ok(items[i]) else Err(IndexError)
    case JStr(s) => if i < |s| then Ok(JStr([s[i]])) else Err(IndexError)
    case JObj(_) => Err(KeyError)
    case _ => Err(TypeError)
  }

  /** `o[i:]`. */
  function From(o: Json, i: nat): Result<Json>
  {
    match o
    case JArr(items) => Ok(JArr(if i <= |items| then items[i..] else []))
    case JStr(s) => Ok(JStr(if i <= |s| then s[i..] else []))
    case _ => Err(TypeError)
  }

  /** `len(o)`. */
  function Len(o: Json): Result<nat>
  {
    match o
    case JArr(items) => Ok(|items|)
    case JStr(s) => Ok(|s|)
    case JObj(fields) => Ok(|Keys(fields)|)
    case _ => Err(TypeError)
  }

  /** `bool(o)`. */
  predicate Truthy(o: Json)
  {
    match o
    case JNull => false
    case JBool(b) => b
    case JNum(n) => n != 0.0
    case JStr(s) => s != []
    case JArr(items) => items != []
    case JObj(fields) => fields != []
  }

  /** The elements `for x in o` visits: list items, dict keys, string characters. */
  function Iter(o: Json): (r: Result<seq<Json>>)
    ensures o.JArr? ==> r == Ok(o.items)
  {
    match o
    case JArr(items) => Ok(items)
    case JObj(fields) => Ok(seq(|Keys(fields)|, i requires 0 <= i < |Keys(fields)| => JStr(Keys(fields)[i])))
    case JStr(s) => Ok(seq(|s|, i requires 0 <= i < |s| => JStr([s[i]])))
    case _ => Err(TypeError)
  }

  /** `o.lower()`: only strings have `lower`. */
  function StrLower(o: Json): (r: Result<string>)
    ensures r.Ok? <==> o.JStr?
  {
    if o.JStr? then Ok(Lower(o.s)) else Err(TypeError)
  }

  /** `float(o)`. */
  function ToFloat(o: Json): (r: Result<real>)
    ensures o.JNum? ==> r == Ok(o.n)
  {
    match o
    case JNum(n) => Ok(n)
    case JBool(b) => Ok(if b then 1.0 else 0.0)
    case JStr(s) => StrToFloat(s)
    case _ => Err(TypeError)
  }

  /** A sized value is true exactly when it is not empty, so
      `if o and len(o) > 0` tests the same thing twice. */
  lemma TruthyIffNonEmpty(o: Json)
    requires o.JArr? || o.JStr? || o.JObj?
    ensures Len(o).Ok?
    ensures Truthy(o) <==> Len(o).value > 0
  {
  }

  // ---------------------------------------------------------------------
  // Generators
  // ---------------------------------------------------------------------

  /** The part of a generator body executed so far: the items yielded, and
      the exception that cut the body short, if any. */
  datatype Run<+T> = Run(items: seq<T>, failure: Option<Exc>)

  function Nothing<T>(): Run<T>
  {
    Run([], None)
  }

  /** A body that fails before yielding. */
  function Fail<T>(e: Exc): Run<T>
  {
    Run([], Some(e))
  }

  /** A body that raises, or else yields at most once. */
  function Emit<T>(r: Result<Option<T>>): Run<T>
  {
    match r
    case Err(e) => Fail(e)
    case Ok(None) => Nothing()
    case Ok(Some(x)) => Run([x], None)
  }

  /** A body that raises before it starts yielding, or else runs `r`. */
  function Settle<T>(r: Result<Run<T>>): Run<T>
  {
    match r
    case Err(e) => Fail(e)
    case Ok(run) => run
  }

  /** `a` followed by `b`; `b` never runs once `a` has raised. */
  function Then<T>(a: Run<T>, b: Run<T>): (r: Run<T>)
    ensures a.items <= r.items
    ensures a.failure.None? && b.failure.None? ==> r.failure.None?
  {
    if a.failure.Some? then a else Run(a.items + b.items, b.failure)
  }

  /** `for x in xs: body(x)`. */
  function RunAll<A, T>(xs: seq<A>, body: A -> Run<T>): Run<T>
  {
    if xs == [] then Nothing()
    else Then(RunAll(xs[..|xs| - 1], body), body(xs[|xs| - 1]))
  }

  /** The items a loop yields before it raises are a prefix of what the same
      loop yields over a longer input; once a prefix raises, the whole loop
      has raised there. */
  lemma {:induction false} RunAllPrefix<A, T>(xs: seq<A>, k: nat, body: A -> Run<T>)
    requires k <= |xs|
    ensures RunAll(xs[..k], body).items <= RunAll(xs, body).items
    ensures RunAll(xs[..k], body).failure.Some? ==> RunAll(xs, body) == RunAll(xs[..k], body)
    decreases |xs|
  {
    if k < |xs| {
      var front := xs[..|xs| - 1];
      assert front[..k] == xs[..k];
      RunAllPrefix(front, k, body);
    } else {
      assert xs[..k] == xs;
    }
  }

  /** The first iteration that raises ends the loop: what it yielded before
      raising is the last thing the loop yields. */
  lemma RunAllStop<A, T>(xs: seq<A>, i: nat, body: A -> Run<T>)
    requires i < |xs|
    requires RunAll(xs[..i], body).failure.None? && body(xs[i]).failure.Some?
    ensures RunAll(xs, body) == Run(RunAll(xs[..i], body).items + body(xs[i]).items, body(xs[i]).failure)
  {
    assert xs[..i + 1][..i] == xs[..i];
    RunAllPrefix(xs, i + 1, body);
  }

  /** One more iteration that does not raise appends what it yields. */
  /** A loop in which some element's body raises raises as a whole (at that
      element or at an earlier one). */
  lemma RunAllFails<A, T>(xs: seq<A>, k: nat, body: A -> Run<T>)
    requires k < |xs| && body(xs[k]).failure.Some?
    ensures RunAll(xs, body).failure.Some?
  {
    if RunAll(xs[..k], body).failure.Some? {
      RunAllPrefix(xs, k, body);
    } else {
      RunAllStep(xs, k, body);
      RunAllPrefix(xs, k + 1, body);
    }
  }

  lemma RunAllStep<A, T>(xs: seq<A>, i: nat, body: A -> Run<T>)
    requires i < |xs| && RunAll(xs[..i], body).failure.None?
    ensures RunAll(xs[..i + 1], body) == Run(RunAll(xs[..i], body).items + body(xs[i]).items, body(xs[i]).failure)
  {
    assert xs[..i + 1][..i] == xs[..i];
  }

  /** A loop over one element is that element's iteration. */
  lemma RunAllOne<A, T>(x: A, body: A -> Run<T>)
    ensures RunAll([x], body) == body(x)
  {
    assert [x][..0] == [];
    assert [] + body(x).items == body(x).items;
  }

  /** A loop over two elements, neither of which raises. */
  lemma RunAllTwo<A, T>(x: A, y: A, body: A -> Run<T>)
    requires body(x).failure.None? && body(y).failure.None?
    ensures RunAll([x, y], body) == Run(body(x).items + body(y).items, None)
  {
    assert [x, y][..1] == [x];
    RunAllOne(x, body);
    assert RunAll([x, y], body) == Then(body(x), body(y));
  }

  /** When no iteration raises, a loop yields the concatenation of what each
      iteration yields, in order. */
  lemma {:induction false} RunAllConcat<A, T>(xs: seq<A>, body: A -> Run<T>)
    requires forall i :: 0 <= i < |xs| ==> body(xs[i]).failure.None?
    ensures RunAll(xs, body) == Run(ConcatItems(xs, body), None)
    decreases |xs|
  {
    if xs != [] {
      var front := xs[..|xs| - 1];
      assert forall i :: 0 <= i < |front| ==> front[i] == xs[i];
      RunAllConcat(front, body);
    }
  }

  /** When every iteration yields exactly one item and none raises, the
      loop yields those items in order. */
  lemma {:induction false} RunAllSingles<A, T>(xs: seq<A>, body: A -> Run<T>)
    requires forall i :: 0 <= i < |xs| ==> body(xs[i]).failure.None? && |body(xs[i]).items| == 1
    ensures RunAll(xs, body).failure.None?
    ensures |RunAll(xs, body).items| == |xs|
    ensures forall i :: 0 <= i < |xs| ==> RunAll(xs, body).items[i] == body(xs[i]).items[0]
    decreases |xs|
  {
    if xs != [] {
      var front := xs[..|xs| - 1];
      assert forall i :: 0 <= i < |front| ==> front[i] == xs[i];
      RunAllSingles(front, body);
    }
  }

  /** What each iteration of `for x in xs: body(x)` yields, in order. */
  function ConcatItems<A, T>(xs: seq<A>, body: A -> Run<T>): seq<T>
  {
    if xs == [] then [] else ConcatItems(xs[..|xs| - 1], body) + body(xs[|xs| - 1]).items
  }

  /** Every item a loop yields is yielded by one of its iterations. */
  lemma {:induction false} RunAllItems<A, T>(xs: seq<A>, body: A -> Run<T>, t: T)
    requires t in RunAll(xs, body).items
    ensures exists i :: 0 <= i < |xs| && t in body(xs[i]).items
    decreases |xs|
  {
    var front := xs[..|xs| - 1];
    var r := RunAll(front, body);
    if r.failure.None? && t !in r.items {
      assert t in body(xs[|xs| - 1]).items;
    } else {
      RunAllItems(front, body, t);
      var i :| 0 <= i < |front| && t in body(front[i]).items;
      assert front[i] == xs[i];
    }
  }

  /** How a generator ended, as `list(...)` sees it. */
  datatype Ending =
    | Exhausted
    | Stopped(caught: Exc)   // the body's `except` caught it: iteration just ends
    | Raised(exc: Exc)       // it escapes from `next()` into the consumer

  datatype Gen<+T> = Gen(items: seq<T>, ending: Ending)

  /** A generator whose body is `try: run except <caught>: return`. */
  function Guard<T>(run: Run<T>, caught: Exc -> bool): (g: Gen<T>)
    ensures g.items == run.items
    ensures g.ending.Exhausted? <==> run.failure.None?
    ensures g.ending.Stopped? <==> run.failure.Some? && caught(run.failure.value)
  {
    match run.failure
    case None => Gen(run.items, Exhausted)
    case Some(e) => if caught(e) then Gen(run.items, Stopped(e)) else Gen(run.items, Raised(e))
  }

  /** `list(g)`: the items, unless an exception escaped. */
  function Drain<T>(g: Gen<T>): (r: Result<seq<T>>)
    ensures r.Ok? <==> !g.ending.Raised?
    ensures r.Ok? ==> r.value == g.items
  {
    if g.ending.Raised? then Err(g.ending.exc) else Ok(g.items)
  }
}
