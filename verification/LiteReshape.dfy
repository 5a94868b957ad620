/** `lite::Tensor::reshape`: which requests it accepts, and the dimension it infers for a `-1`. */
module LiteReshape {
  import opened Arith
  import opened Reshape
  import opened SafeMultiply
  import opened Wrappers

  const MAXDIM: nat := 7

  /** The request asks for the extent to be inferred here. */
  const UNFIXED: int := -1

  predicate EntriesOk(req: seq<int>) {
    forall i :: 0 <= i < |req| ==> req[i] == UNFIXED || req[i] > 0
  }

  /** Number of `-1` entries among the first `i`. */
  function Unfixed(req: seq<int>, i: nat): nat
    requires i <= |req|
  {
    if i == 0 then 0 else Unfixed(req, i - 1) + if req[i - 1] == UNFIXED then 1 else 0
  }

  /** Product of the fixed entries among the first `i`. */
  function FixedProd(req: seq<int>, i: nat): (p: int)
    requires i <= |req| && EntriesOk(req)
    ensures p > 0
  {
    if i == 0 then 1
    else if req[i - 1] == UNFIXED then FixedProd(req, i - 1)
    else MulLe(1, req[i - 1], FixedProd(req, i - 1)); FixedProd(req, i - 1) * req[i - 1]
  }

  /** `shape` is the request with every `-1` filled in. */
  predicate Answers(req: seq<int>, shape: seq<nat>) {
    |shape| == |req| && forall i :: 0 <= i < |req| && req[i] != UNFIXED ==> shape[i] == req[i]
  }

  /** A request the checks of `reshape` let through for a tensor with `total` elements. */
  predicate Accepted(total: nat, req: seq<int>) {
    && EntriesOk(req)
    && Unfixed(req, |req|) <= 1
    && if Unfixed(req, |req|) == 1 then total > 0 && total % FixedProd(req, |req|) == 0
       else FixedProd(req, |req|) % SIZE_LIMIT == total
  }

  /** The checks and loops of `reshape`, on `size_t`. */
  method InferShape(total: nat, req: seq<int>) returns (r: Option<seq<nat>>)
    requires total < SIZE_LIMIT
    ensures r.Some? <==> Accepted(total, req)
    ensures r.Some? ==> Answers(req, r.value) && Prod(r.value) % SIZE_LIMIT == total
    ensures r.Some? && Unfixed(req, |req|) == 1 ==> Prod(r.value) == total
  {
    hide Prod, FixedProd, Unfixed;
    var ok, unfixedNumber, unfixedIndex, shapes := ReadRequest(req);
    if !ok || unfixedNumber > 1 {
      return None;
    }
    if unfixedNumber == 1 {
      var left := InferLeft(total, req, unfixedIndex);
      if left == 0 {
        return None;
      }
      shapes := shapes[unfixedIndex := left];
    }
    ProdOfAnswer(req, shapes, unfixedNumber, unfixedIndex);
    var newTotal := WrappedProduct(shapes);
    if newTotal != total {
      return None;
    }
    return Some(shapes);
  }

  /** First loop: check the entries and find the `-1`. */
  method ReadRequest(req: seq<int>) returns (ok: bool, unfixedNumber: nat, unfixedIndex: nat, shapes: seq<nat>)
    ensures ok <==> EntriesOk(req)
    ensures ok ==> unfixedNumber == Unfixed(req, |req|) && |shapes| == |req|
    ensures ok && unfixedNumber > 0 ==> unfixedIndex < |req| && req[unfixedIndex] == UNFIXED
    ensures ok && unfixedNumber <= 1 ==>
      forall j :: 0 <= j < |req| && !(unfixedNumber == 1 && j == unfixedIndex) ==> req[j] != UNFIXED
    ensures ok ==> forall j :: 0 <= j < |req| && req[j] != UNFIXED ==> shapes[j] == req[j]
  {
    unfixedNumber, unfixedIndex, shapes := 0, 0, [];
    for i := 0 to |req|
      invariant unfixedNumber == Unfixed(req, i) && |shapes| == i
      invariant unfixedNumber > 0 ==> unfixedIndex < i && req[unfixedIndex] == UNFIXED
      invariant unfixedNumber <= 1 ==> forall j :: 0 <= j < i && !(unfixedNumber == 1 && j == unfixedIndex) ==>
          req[j] != UNFIXED
      invariant forall j :: 0 <= j < i && req[j] != UNFIXED ==> req[j] > 0 && shapes[j] == req[j]
    {
      if req[i] == UNFIXED {
        unfixedNumber, unfixedIndex := unfixedNumber + 1, i;
        shapes := shapes + [0];
      } else {
        if req[i] <= 0 {
          return false, 0, 0, [];
        }
        shapes := shapes + [req[i]];
      }
    }
    ok := true;
  }

  /** Second loop: divide the total by the fixed entries, one by one. Zero stands for a failed check. */
  method InferLeft(total: nat, req: seq<int>, unfixedIndex: nat) returns (left: nat)
    requires EntriesOk(req) && unfixedIndex < |req| && req[unfixedIndex] == UNFIXED
    requires forall j :: 0 <= j < |req| && j != unfixedIndex ==> req[j] != UNFIXED
    ensures left > 0 <==> total > 0 && total % FixedProd(req, |req|) == 0
    ensures left > 0 ==> left * FixedProd(req, |req|) == total
  {
    left := total;
    for i := 0 to |req|
      invariant left * FixedProd(req, i) == total
    {
      if i == unfixedIndex {
        continue;
      }
      if !(left > 0 && left % req[i] == 0) {
        IndivisibleStep(req, i, left, total);
        return 0;
      }
      DividesStep(left, req[i], FixedProd(req, i));
      left := left / req[i];
    }
    DivModUnique(total, FixedProd(req, |req|), left, 0);
  }

  /** Last loop: the number of elements of the new shape; no product wraps unless the whole one does. */
  method WrappedProduct(shapes: seq<nat>) returns (newTotal: nat)
    ensures newTotal == Prod(shapes) % SIZE_LIMIT
  {
    newTotal := 1;
    for i := 0 to |shapes|
      invariant newTotal == Prod(shapes[..i]) % SIZE_LIMIT
    {
      assert shapes[..i + 1][..i] == shapes[..i];
      ModMul(Prod(shapes[..i]), shapes[i]);
      newTotal := newTotal * shapes[i] % SIZE_LIMIT;
    }
    assert shapes[..|shapes|] == shapes;
  }

  lemma DividesStep(left: int, s: int, p: int)
    requires left > 0 && s > 0 && left % s == 0
    ensures 0 < left / s <= left && left / s * (p * s) == left * p
  {
    var q := left / s;
    assert left == q * s;
    if q <= 0 {
      MulLe(q, 0, s);
    }
    ProductGe(q, s);
    assert q * (p * s) == q * s * p;
  }

  /** If one entry does not divide what is left, the whole product does not divide the total. */
  lemma IndivisibleStep(req: seq<int>, i: nat, left: int, total: nat)
    requires EntriesOk(req) && i < |req| && req[i] != UNFIXED
    requires left >= 0 && left * FixedProd(req, i) == total
    requires !(left > 0 && left % req[i] == 0)
    ensures !(total > 0 && total % FixedProd(req, |req|) == 0)
  {
    var n := FixedProd(req, |req|);
    if total > 0 && total % n == 0 {
      var rest := FixedSuffix(req, i + 1);
      var p, q := FixedProd(req, i), total / n;
      assert FixedProd(req, i + 1) == p * req[i];
      hide FixedProd;
      Multiple(total, n);
      assert n == p * req[i] * rest;
      FactorDivides(left, p, req[i], rest, q);
    }
  }

  lemma Multiple(a: int, b: int)
    requires b > 0 && a % b == 0
    ensures a == a / b * b
  {
  }

  lemma FactorDivides(left: int, p: int, s: int, rest: int, q: int)
    requires p > 0 && s > 0 && left * p > 0 && left * p == q * (p * s * rest)
    ensures left > 0 && left % s == 0
  {
    assert q * (p * s * rest) == q * rest * s * p;
    MulCancelEq(left, q * rest * s, p);
    DivModUnique(left, s, q * rest, 0);
  }

  lemma {:induction false} FixedSuffix(req: seq<int>, i: nat) returns (rest: int)
    requires EntriesOk(req) && i <= |req|
    ensures rest > 0 && FixedProd(req, |req|) == FixedProd(req, i) * rest
    decreases |req| - i
  {
    if i == |req| {
      rest := 1;
    } else {
      rest := FixedSuffix(req, i + 1);
      if req[i] != UNFIXED {
        MulAssoc(FixedProd(req, i), req[i], rest);
        ProductGe(req[i], rest);
        rest := req[i] * rest;
      }
    }
  }

  lemma ModMul(p: int, s: int)
    requires p >= 0 && s >= 0
    ensures p % SIZE_LIMIT * s % SIZE_LIMIT == p * s % SIZE_LIMIT
  {
    var q, r := p / SIZE_LIMIT, p % SIZE_LIMIT;
    assert p * s == (q * SIZE_LIMIT + r) * s == q * s * SIZE_LIMIT + r * s;
    var x := r * s;
    DivModUnique(p * s, SIZE_LIMIT, q * s + x / SIZE_LIMIT, x % SIZE_LIMIT);
  }

  /** The product of a filled-in request: the fixed entries, times the filled one. */
  lemma ProdOfAnswer(req: seq<int>, shapes: seq<nat>, unfixedNumber: nat, u: nat)
    requires EntriesOk(req) && |shapes| == |req| && unfixedNumber == Unfixed(req, |req|) <= 1
    requires unfixedNumber == 1 ==> u < |req| && req[u] == UNFIXED
    requires forall j :: 0 <= j < |req| && !(unfixedNumber == 1 && j == u) ==> req[j] != UNFIXED && shapes[j] == req[j]
    ensures unfixedNumber == 1 ==> Prod(shapes) == shapes[u] * FixedProd(req, |req|)
    ensures unfixedNumber == 0 ==> Prod(shapes) == FixedProd(req, |req|)
  {
    PrefixOfAnswer(req, shapes, if unfixedNumber == 1 then u else |req|, |req|);
    assert shapes[..|req|] == shapes;
  }

  lemma {:induction false} PrefixOfAnswer(req: seq<int>, shapes: seq<nat>, u: nat, i: nat)
    requires EntriesOk(req) && |shapes| == |req| && i <= |req|
    requires u < |req| ==> req[u] == UNFIXED
    requires forall j :: 0 <= j < |req| && j != u ==> req[j] != UNFIXED && shapes[j] == req[j]
    ensures Prod(shapes[..i]) == (if u < i then shapes[u] else 1) * FixedProd(req, i)
  {
    if i > 0 {
      PrefixOfAnswer(req, shapes, u, i - 1);
      assert shapes[..i][..i - 1] == shapes[..i - 1];
      if u < i - 1 {
        MulAssoc(shapes[u], FixedProd(req, i - 1), req[i - 1]);
      }
    }
  }

  // ---- what acceptance means -------------------------------------------------------------

  /** Any shape that answers the request has the fixed entries as a factor. */
  lemma AnswerProduct(req: seq<int>, shape: seq<nat>) returns (u: nat)
    requires EntriesOk(req) && Unfixed(req, |req|) <= 1 && Answers(req, shape)
    ensures Unfixed(req, |req|) == 1 ==>
      u < |req| && req[u] == UNFIXED && Prod(shape) == shape[u] * FixedProd(req, |req|)
    ensures Unfixed(req, |req|) == 1 ==> forall j :: 0 <= j < |req| && j != u ==> req[j] != UNFIXED
    ensures Unfixed(req, |req|) == 0 ==> Prod(shape) == FixedProd(req, |req|)
    ensures Unfixed(req, |req|) == 0 ==> forall j :: 0 <= j < |req| ==> req[j] != UNFIXED
  {
    u := FindUnfixed(req, |req|);
    ProdOfAnswer(req, shape, Unfixed(req, |req|), u);
  }

  lemma {:induction false} FindUnfixed(req: seq<int>, i: nat) returns (u: nat)
    requires i <= |req| && Unfixed(req, i) <= 1
    ensures Unfixed(req, i) == 1 ==> u < i && req[u] == UNFIXED
    ensures forall j :: 0 <= j < i && !(Unfixed(req, i) == 1 && j == u) ==> req[j] != UNFIXED
  {
    if i == 0 {
      u := 0;
    } else {
      u := FindUnfixed(req, i - 1);
      if req[i - 1] == UNFIXED {
        u := i - 1;
      }
    }
  }

  /** With at most one `-1`, at most one shape answers the request with a given number of elements. */
  lemma AnswerUnique(req: seq<int>, s: seq<nat>, s': seq<nat>)
    requires EntriesOk(req) && Unfixed(req, |req|) <= 1
    requires Answers(req, s) && Answers(req, s') && Prod(s) == Prod(s')
    ensures s == s'
  {
    var u := AnswerProduct(req, s);
    var u' := AnswerProduct(req, s');
    if Unfixed(req, |req|) == 1 {
      assert u == u';
      MulCancelEq(s[u], s'[u], FixedProd(req, |req|));
    }
  }

  /**
    A non-empty tensor accepts a request with a single `-1` exactly when some shape answers it
    with the same number of elements. Without a `-1` that also holds, as long as the product of
    the request does not reach the limit of `size_t`.
   */
  lemma AcceptedIffAnswerable(total: nat, req: seq<int>)
    requires 0 < total < SIZE_LIMIT && EntriesOk(req) && Unfixed(req, |req|) <= 1
    requires Unfixed(req, |req|) == 0 ==> FixedProd(req, |req|) < SIZE_LIMIT
    ensures Accepted(total, req) <==> exists shape: seq<nat> :: Answers(req, shape) && Prod(shape) == total
  {
    hide Prod, FixedProd, Unfixed;
    var n := FixedProd(req, |req|);
    if Accepted(total, req) {
      var u := FindUnfixed(req, |req|);
      var left: nat := total / n;
      var shape: seq<nat> := seq(|req|, i requires 0 <= i < |req| => if req[i] == UNFIXED then left else req[i]);
      ProdOfAnswer(req, shape, Unfixed(req, |req|), u);
      assert Answers(req, shape) && Prod(shape) == total;
    }
    if shape: seq<nat> :| Answers(req, shape) && Prod(shape) == total {
      var u := AnswerProduct(req, shape);
      if Unfixed(req, |req|) == 1 {
        DivModUnique(total, n, shape[u], 0);
      }
    }
  }

  /** `shape` is what the request stands for: positive, as requested, and with that many elements, as far as counted. */
  predicate FillsIn(total: nat, req: seq<int>, shape: seq<nat>) {
    && Answers(req, shape) && (forall i :: 0 <= i < |shape| ==> shape[i] > 0)
    && if UNFIXED in req then Prod(shape) == total else Prod(shape) % SIZE_LIMIT == total
  }

  predicate AtMostOneUnfixed(req: seq<int>) {
    forall i, j :: 0 <= i < j < |req| ==> req[i] != UNFIXED || req[j] != UNFIXED
  }

  lemma {:induction false} UnfixedCounts(req: seq<int>, i: nat)
    requires i <= |req|
    ensures Unfixed(req, i) == 0 <==> UNFIXED !in req[..i]
    ensures Unfixed(req, i) <= 1 <==> AtMostOneUnfixed(req[..i])
  {
    if i > 0 {
      UnfixedCounts(req, i - 1);
      var s, t := req[..i - 1], req[..i];
      assert t == s + [req[i - 1]];
      assert AtMostOneUnfixed(t) <==> AtMostOneUnfixed(s) && (req[i - 1] != UNFIXED || UNFIXED !in s) by {
        SnocUnfixed(s, req[i - 1]);
      }
    }
  }

  lemma SnocUnfixed(s: seq<int>, x: int)
    ensures AtMostOneUnfixed(s + [x]) <==> AtMostOneUnfixed(s) && (x != UNFIXED || UNFIXED !in s)
  {
    var t := s + [x];
    if AtMostOneUnfixed(t) {
      forall i, j | 0 <= i < j < |s| ensures s[i] != UNFIXED || s[j] != UNFIXED {
        assert t[i] == s[i] && t[j] == s[j];
      }
      assert x == t[|s|];
      assert forall i :: 0 <= i < |s| ==> s[i] == t[i];
    }
  }

  /** For every tensor, exactly the requests with at most one `-1` that some shape fills in are accepted. */
  lemma AcceptedIffFilledIn(total: nat, req: seq<int>)
    requires total < SIZE_LIMIT
    ensures Accepted(total, req) <==> AtMostOneUnfixed(req) && exists shape: seq<nat> :: FillsIn(total, req, shape)
  {
    hide Prod, FixedProd, Unfixed;
    UnfixedCounts(req, |req|);
    assert req[..|req|] == req;
    if Accepted(total, req) {
      var shape := FilledIn(total, req);
    }
    if shape: seq<nat> :| AtMostOneUnfixed(req) && FillsIn(total, req, shape) {
      assert EntriesOk(req);
      var u := AnswerProduct(req, shape);
      if Unfixed(req, |req|) == 1 {
        DivModUnique(total, FixedProd(req, |req|), shape[u], 0);
        assert UNFIXED in req;
        ProductGe(shape[u], FixedProd(req, |req|));
      }
    }
  }

  lemma FilledIn(total: nat, req: seq<int>) returns (shape: seq<nat>)
    requires Accepted(total, req)
    ensures FillsIn(total, req, shape)
  {
    hide Prod, FixedProd, Unfixed;
    UnfixedCounts(req, |req|);
    assert req[..|req|] == req;
    var n := FixedProd(req, |req|);
    var u := FindUnfixed(req, |req|);
    var left: nat := total / n;
    shape := seq(|req|, i requires 0 <= i < |req| => if req[i] == UNFIXED then left else req[i]);
    ProdOfAnswer(req, shape, Unfixed(req, |req|), u);
    if Unfixed(req, |req|) == 1 {
      Multiple(total, n);
      assert left > 0;
    }
  }

  /** When a `-1` was inferred, no product on the way to the new total exceeds the number of elements. */
  lemma NoProductOnTheWayExceeds(total: nat, shape: seq<nat>, i: nat)
    requires 0 < total == Prod(shape) && i <= |shape|
    ensures 0 < Prod(shape[..i]) <= total
  {
    ProdPrefixLe(shape, i, |shape|);
    assert shape[..|shape|] == shape;
  }

  /**
    An accepted request keeps the number of elements exactly when it has a `-1` or its product stays
    below the limit.
   */
  lemma SizeKeptIff(total: nat, req: seq<int>, shape: seq<nat>)
    requires total < SIZE_LIMIT && Accepted(total, req) && Answers(req, shape)
    requires Prod(shape) % SIZE_LIMIT == total
    ensures Unfixed(req, |req|) == 0 ==> (Prod(shape) == total <==> FixedProd(req, |req|) < SIZE_LIMIT)
  {
    var u := AnswerProduct(req, shape);
  }

  /** Beyond that limit the product wraps: an empty tensor passes the checks for a non-empty shape. */
  lemma WrapAccepted()
    ensures Accepted(0, [65536, 65536, 65536, 65536])
    ensures Prod([65536, 65536, 65536, 65536]) != 0
  {
    var req := [65536, 65536, 65536, 65536];
    assert FixedProd(req, 1) == 65536 && FixedProd(req, 2) == 0x1_0000_0000;
    assert FixedProd(req, 4) == SIZE_LIMIT;
    ProdPositive([65536, 65536, 65536, 65536]);
  }
}
