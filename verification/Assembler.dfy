/** Report assembly for one job: the mean of the numeric observations. */
module Assembler {
  import opened Basics

  /** One job's observation as a node sends it; `response` is the raw JSON text. */
  datatype Response = Response(jobId: string, response: string)

  /** The parts of a job that decide how it is assembled. */
  datatype JobSpec = JobSpec(jobType: string, resultType: string)

  datatype AssembleError = UnsupportedJobType | NonNumericResult | UnparsableResponse | NoObservations

  datatype Assembly = Value(value: Json) | Failed(error: AssembleError)

  /** Parsing a JSON text as a number. */
  type Parser = string -> Option<real>

  const DIRECT_REQUEST: string := "directrequest"
  const NUMERIC: string := "numeric"

  ghost predicate Parses(m: multiset<Response>, parse: Parser) {
    forall x :: x in m ==> parse(x.response).Some?
  }

  /** The sum of the observations, with no order among them. */
  ghost function Sum(m: multiset<Response>, parse: Parser): real
    requires Parses(m, parse)
    decreases |m|
  {
    if m == multiset{} then 0.0 else
      var x :| x in m;
      parse(x.response).value + Sum(m - multiset{x}, parse)
  }

  lemma SumPick(m: multiset<Response>, parse: Parser) returns (y: Response)
    requires Parses(m, parse) && m != multiset{}
    ensures y in m && Sum(m, parse) == parse(y.response).value + Sum(m - multiset{y}, parse)
  {
    y :| y in m && Sum(m, parse) == parse(y.response).value + Sum(m - multiset{y}, parse);
  }

  lemma {:induction false} SumAdd(m: multiset<Response>, x: Response, parse: Parser)
    requires Parses(m, parse) && parse(x.response).Some?
    ensures Parses(m + multiset{x}, parse)
    ensures Sum(m + multiset{x}, parse) == Sum(m, parse) + parse(x.response).value
    decreases |m|
  {
    var all := m + multiset{x};
    assert x in all;
    var y := SumPick(all, parse);
    TakeOne(m, x, y);
    if y != x {
      SumAdd(m - multiset{y}, x, parse);
      SumAdd(m - multiset{y}, y, parse);
    }
  }

  lemma TakeOne(m: multiset<Response>, x: Response, y: Response)
    requires y in m + multiset{x}
    ensures y == x ==> m + multiset{x} - multiset{y} == m
    ensures y != x ==> y in m && m + multiset{x} - multiset{y} == (m - multiset{y}) + multiset{x}
                       && m == (m - multiset{y}) + multiset{y}
  {
  }

  /** The mean of `k` numbers that add up to `sum`. */
  function Mean(sum: real, k: nat): real
    requires k > 0
  {
    sum / (k as real)
  }

  lemma MeanTimesCount(sum: real, k: nat)
    requires k > 0
    ensures Mean(sum, k) * (k as real) == sum
  {
    var d := k as real;
    assert sum / d * d == sum;
  }

  /** What the observations of one job assemble to, whatever order they come in. */
  ghost function Assembled(spec: JobSpec, m: multiset<Response>, parse: Parser): Assembly {
    if spec.jobType != DIRECT_REQUEST then Failed(UnsupportedJobType)
    else if spec.resultType != NUMERIC then Failed(NonNumericResult)
    else if !Parses(m, parse) then Failed(UnparsableResponse)
    else if m == multiset{} then Failed(NoObservations)
    else Value(Number(Mean(Sum(m, parse), |m|)))
  }

  /** `k` copies of `c` added up. */
  function Repeated(c: real, k: nat): real {
    if k == 0 then 0.0 else c + Repeated(c, k - 1)
  }

  lemma {:induction false} RepeatedIsProduct(c: real, k: nat)
    ensures Repeated(c, k) == c * (k as real)
  {
    if k > 0 {
      RepeatedIsProduct(c, k - 1);
      var x := (k - 1) as real;
      assert c * (x + 1.0) == c * x + c;
      assert k as real == x + 1.0;
    }
  }

  lemma {:induction false} SumBounds(m: multiset<Response>, parse: Parser, lo: real, hi: real)
    requires Parses(m, parse)
    requires forall x :: x in m ==> lo <= parse(x.response).value <= hi
    ensures Repeated(lo, |m|) <= Sum(m, parse) <= Repeated(hi, |m|)
    decreases |m|
  {
    if m != multiset{} {
      var x := SumPick(m, parse);
      SumBounds(m - multiset{x}, parse, lo, hi);
    }
  }

  /** The reported mean lies between any bounds on the observations. */
  lemma MeanBounds(spec: JobSpec, m: multiset<Response>, parse: Parser, lo: real, hi: real)
    requires Assembled(spec, m, parse).Value?
    requires forall x :: x in m ==> lo <= parse(x.response).value <= hi
    ensures Assembled(spec, m, parse).value.Number?
    ensures lo <= Assembled(spec, m, parse).value.x <= hi
  {
    MeanWithin(Sum(m, parse), |m|, lo, hi) by {
      SumBounds(m, parse, lo, hi);
    }
  }

  lemma MeanWithin(sum: real, k: nat, lo: real, hi: real)
    requires k > 0 && Repeated(lo, k) <= sum <= Repeated(hi, k)
    ensures lo <= Mean(sum, k) <= hi
  {
    RepeatedIsProduct(lo, k);
    RepeatedIsProduct(hi, k);
    DivBounds(sum, k as real, lo, hi);
  }

  lemma DivBounds(sum: real, k: real, lo: real, hi: real)
    requires k > 0.0 && lo * k <= sum <= hi * k
    ensures lo <= sum / k <= hi
  {
    var q := sum / k;
    assert q * k == sum;
    assert q < lo ==> q * k < lo * k;
    assert q > hi ==> q * k > hi * k;
  }

  lemma SumNext(obs: seq<Response>, i: nat, parse: Parser)
    requires i < |obs| && Parses(multiset(obs[..i]), parse) && parse(obs[i].response).Some?
    ensures Parses(multiset(obs[..i + 1]), parse)
    ensures Sum(multiset(obs[..i + 1]), parse) == Sum(multiset(obs[..i]), parse) + parse(obs[i].response).value
  {
    assert obs[..i + 1] == obs[..i] + [obs[i]];
    SumAdd(multiset(obs[..i]), obs[i], parse);
  }

  /** Parsing and adding up the observations; stops at the first that does not parse. */
  method AddUp(obs: seq<Response>, parse: Parser) returns (ok: bool, sum: real, count: nat)
    ensures ok <==> Parses(multiset(obs), parse)
    ensures ok ==> sum == Sum(multiset(obs), parse) && count == |obs|
  {
    sum, count := 0.0, 0;
    for i := 0 to |obs|
      invariant Parses(multiset(obs[..i]), parse)
      invariant sum == Sum(multiset(obs[..i]), parse)
      invariant count == i
    {
      var val := parse(obs[i].response);
      if val.None? {
        assert obs[i] in multiset(obs);
        return false, sum, count;
      }
      SumNext(obs, i, parse);
      sum := sum + val.value;
      count := count + 1;
    }
    assert obs[..|obs|] == obs;
    ok := true;
  }

  // ---- What assembly means ----

  /** The numbers of a list added up from its front. */
  function ListSum(obs: seq<Response>, parse: Parser): real
    requires forall x :: x in obs ==> parse(x.response).Some?
  {
    if obs == [] then 0.0 else ListSum(obs[..|obs| - 1], parse) + parse(obs[|obs| - 1].response).value
  }

  lemma {:induction false} SumOfList(obs: seq<Response>, parse: Parser)
    requires forall x :: x in obs ==> parse(x.response).Some?
    ensures Parses(multiset(obs), parse) && Sum(multiset(obs), parse) == ListSum(obs, parse)
  {
    if obs != [] {
      var last := |obs| - 1;
      SumOfList(obs[..last], parse);
      SumNext(obs, last, parse);
      assert obs[..last + 1] == obs;
    }
  }

  lemma AllParse(obs: seq<Response>, parse: Parser)
    ensures Parses(multiset(obs), parse) <==> forall x :: x in obs ==> parse(x.response).Some?
  {
    assert forall x :: x in obs <==> x in multiset(obs);
  }

  /** Assembly succeeds exactly on a direct request with numeric result and at least one observation, all of which are
      numbers. */
  lemma AssemblesIff(spec: JobSpec, obs: seq<Response>, parse: Parser)
    ensures Assembled(spec, multiset(obs), parse).Value?
            <==> spec.jobType == "directrequest" && spec.resultType == "numeric" && obs != []
                 && forall x :: x in obs ==> parse(x.response).Some?
  {
    AllParse(obs, parse);
    assert |multiset(obs)| == |obs|;
  }

  lemma ListOf(obs: seq<Response>, parse: Parser)
    requires forall x :: x in obs ==> parse(x.response).Some?
    ensures |multiset(obs)| == |obs| && Parses(multiset(obs), parse)
    ensures Sum(multiset(obs), parse) == ListSum(obs, parse)
  {
    SumOfList(obs, parse);
  }

  lemma AssembledIsMean(spec: JobSpec, m: multiset<Response>, parse: Parser)
    requires Assembled(spec, m, parse).Value?
    ensures m != multiset{} && Parses(m, parse)
    ensures Assembled(spec, m, parse).value == Number(Mean(Sum(m, parse), |m|))
  {
  }

  /** The value is the mean over the whole list, repeated observations included. */
  lemma MeanOfList(spec: JobSpec, obs: seq<Response>, parse: Parser)
    requires Assembled(spec, multiset(obs), parse).Value?
    ensures obs != [] && forall x :: x in obs ==> parse(x.response).Some?
    ensures Assembled(spec, multiset(obs), parse).value == Number(Mean(ListSum(obs, parse), |obs|))
  {
    AssembledIsMean(spec, multiset(obs), parse);
    AllParse(obs, parse);
    ListOf(obs, parse);
  }

  lemma CountIsDivisor(q: real, sum: real, n: nat, k: real)
    requires n > 0 && k == n as real && q == Mean(sum, n)
    ensures q * k == sum
  {
    MeanTimesCount(sum, n);
  }

  /** The value times the number of observations is the sum of all of them. */
  lemma ValueTimesCount(spec: JobSpec, obs: seq<Response>, parse: Parser, q: real, k: real)
    requires Assembled(spec, multiset(obs), parse) == Value(Number(q)) && k == |obs| as real
    ensures (forall x :: x in obs ==> parse(x.response).Some?) && q * k == ListSum(obs, parse)
  {
    MeanOfList(spec, obs, parse);
    var sum := ListSum(obs, parse);
    CountIsDivisor(q, sum, |obs|, k);
    assert q * k == sum;
  }

  lemma AssemblyMeaning(spec: JobSpec, obs: seq<Response>, parse: Parser)
    ensures var r := Assembled(spec, multiset(obs), parse);
            && (r.Value? <==> spec.jobType == "directrequest" && spec.resultType == "numeric" && obs != []
                              && forall x :: x in obs ==> parse(x.response).Some?)
            && (r.Value? ==> r.value == Number(Mean(ListSum(obs, parse), |obs|)))
            && (r.Failed? ==> r.error == if spec.jobType != "directrequest" then UnsupportedJobType
                                         else if spec.resultType != "numeric" then NonNumericResult
                                         else if obs == [] then NoObservations
                                         else UnparsableResponse)
  {
    AssemblesIff(spec, obs, parse);
    if Assembled(spec, multiset(obs), parse).Value? {
      MeanOfList(spec, obs, parse);
    }
  }

  /** `MeanValueAssembler.Assemble`. */
  method Assemble(spec: JobSpec, obs: seq<Response>, parse: Parser) returns (r: Assembly)
    ensures r == Assembled(spec, multiset(obs), parse)
    ensures r.Value? <==> spec.jobType == "directrequest" && spec.resultType == "numeric" && obs != []
                          && forall x :: x in obs ==> parse(x.response).Some?
    ensures r.Value? ==> r.value == Number(Mean(ListSum(obs, parse), |obs|))
    ensures r.Failed? ==> r.error == if spec.jobType != "directrequest" then UnsupportedJobType
                                     else if spec.resultType != "numeric" then NonNumericResult
                                     else if obs == [] then NoObservations
                                     else UnparsableResponse
  {
    AssemblyMeaning(spec, obs, parse);
    if spec.jobType != DIRECT_REQUEST {
      return Failed(UnsupportedJobType);
    }
    if spec.resultType != NUMERIC {
      return Failed(NonNumericResult);
    }
    var ok, sum, count := AddUp(obs, parse);
    if !ok {
      return Failed(UnparsableResponse);
    }
    assert |multiset(obs)| == |obs|;
    if count == 0 {
      return Failed(NoObservations);
    }
    return Value(Number(Mean(sum, count)));
  }
}
