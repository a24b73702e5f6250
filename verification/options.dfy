/**
 * The configuration decisions of the sender's argument parser that shape a
 * session: the loss policy (at most one loss option may be given) and the
 * optional numeric DTag.
 */
module Options {
  import opened Wrappers
  import opened Text
  import opened Loss

  /** Why a configuration is refused before any session starts. */
  datatype ConfigError =
    | TooManyLossOptions  // more than one of the three loss options
    | BadLossList         // a piece of the loss list is not an integer
    | BadDTag             // the DTag is given but is not an integer

  /** The validated settings a session is run with. */
  datatype Config = Config(policy: Policy, dtag: Option<int>)

  function CountTrue(a: bool, b: bool, c: bool): nat
  {
    (if a then 1 else 0) + (if b then 1 else 0) + (if c then 1 else 0)
  }

  /** The "one in three" test: no two of the three flags hold together. */
  function AtMostOneOf3(a: bool, b: bool, c: bool): (ok: bool)
    ensures ok <==> CountTrue(a, b, c) <= 1
  {
    !((a && b) || (b && c) || (c && a))
  }

  /** Each integer of the list, joined by commas as a user writes it. */
  function ShowList(xs: seq<int>): (pieces: seq<string>)
    ensures |pieces| == |xs|
    ensures forall i :: 0 <= i < |xs| ==> pieces[i] == ShowInt(xs[i])
  {
    if |xs| == 0 then [] else [ShowInt(xs[0])] + ShowList(xs[1..])
  }

  /** Converts every piece with `int()`; one bad piece spoils the list. */
  function ParseAll(pieces: seq<string>): (r: Option<seq<int>>)
    ensures r.Some? <==> forall i :: 0 <= i < |pieces| ==> ParseInt(pieces[i]).Some?
    ensures r.Some? ==> |r.value| == |pieces|
    ensures r.Some? ==> forall i :: 0 <= i < |pieces| ==> ParseInt(pieces[i]) == Some(r.value[i])
  {
    if |pieces| == 0 then Some([])
    else
      match (ParseInt(pieces[0]), ParseAll(pieces[1..]))
      case (Some(x), Some(xs)) => Some([x] + xs)
      case _ => None
  }

  /** The value of `--loss-list`: the option split on commas, each piece an
      integer. */
  function ParseLossList(s: string): (r: Option<seq<int>>)
    ensures r.Some? ==> |r.value| == |Split(s, ',')| >= 1
  {
    ParseAll(Split(s, ','))
  }

  /** No piece of a shown list contains a comma. */
  lemma ShowListPieces(xs: seq<int>)
    ensures forall i :: 0 <= i < |xs| ==> ',' !in ShowList(xs)[i]
  {
    forall i | 0 <= i < |xs|
      ensures ',' !in ShowInt(xs[i])
    {
      ShowIntChars(xs[i]);
    }
  }

  /** Round trip: a non-empty list written with commas parses back to itself. */
  lemma LossListRoundTrip(xs: seq<int>)
    requires |xs| >= 1
    ensures ParseLossList(Join(ShowList(xs), ',')) == Some(xs)
  {
    ShowListPieces(xs);
    SplitJoin(ShowList(xs), ',');
    ParseAllShowList(xs);
  }

  lemma {:induction false} ParseAllShowList(xs: seq<int>)
    ensures ParseAll(ShowList(xs)) == Some(xs)
  {
    if |xs| > 0 {
      var pieces := ShowList(xs);
      assert pieces[0] == ShowInt(xs[0]);
      assert pieces[1..] == ShowList(xs[1..]);
      ParseShowInt(xs[0]);
      ParseAllShowList(xs[1..]);
      assert ParseAll(pieces) == Some([xs[0]] + xs[1..]);
      assert [xs[0]] + xs[1..] == xs;
    }
  }

  /** The DTag option: absent means `None` (the engine picks one); present,
      it must read as an integer. */
  function ParseDTag(dtag: Option<string>): (r: Result<Option<int>, ConfigError>)
    ensures dtag.None? ==> r == Ok(None)
    ensures dtag.Some? ==> (r.Ok? <==> ParseInt(dtag.value).Some?)
    ensures r.Ok? && dtag.Some? ==> r.value == ParseInt(dtag.value)
    ensures r.Err? ==> r.error == BadDTag
  {
    match dtag
    case None => Ok(None)
    case Some(s) =>
      match ParseInt(s)
      case None => Err(BadDTag)
      case Some(n) => Ok(Some(n))
  }

  /** A DTag written as a number is read back as that number. */
  lemma DTagRoundTrip(n: int)
    ensures ParseDTag(Some(ShowInt(n))) == Ok(Some(n))
  {
    ParseShowInt(n);
  }

  /** The loss and DTag part of the argument parser. The loss checks run
      first: more than one loss option, then a malformed loss list, then a
      malformed DTag. */
  function Configure(lossList: Option<string>, lossRate: Option<real>, lossRandom: bool,
                     dtag: Option<string>): (r: Result<Config, ConfigError>)
    ensures CountTrue(lossList.Some?, lossRate.Some?, lossRandom) > 1 <==> r == Err(TooManyLossOptions)
    ensures r.Ok? ==> match r.value.policy
                      case NoLoss => lossList.None? && lossRate.None? && !lossRandom
                      case LossList(xs) => lossList.Some? && ParseLossList(lossList.value) == Some(xs)
                      case LossRate(p) => lossRate == Some(p)
                      case LossRandom => lossRandom
    ensures r.Ok? ==> ParseDTag(dtag) == Ok(r.value.dtag)
    ensures r == Err(BadLossList) <==>
      CountTrue(lossList.Some?, lossRate.Some?, lossRandom) <= 1
      && lossList.Some? && ParseLossList(lossList.value).None?
    ensures r == Err(BadDTag) <==>
      CountTrue(lossList.Some?, lossRate.Some?, lossRandom) <= 1
      && (lossList.None? || ParseLossList(lossList.value).Some?)
      && ParseDTag(dtag).Err?
  {
    if !AtMostOneOf3(lossList.Some?, lossRate.Some?, lossRandom) then Err(TooManyLossOptions)
    else
      var policy :=
        if lossList.Some? then
          match ParseLossList(lossList.value)
          case None => Err(BadLossList)
          case Some(xs) => Ok(LossList(xs))
        else if lossRate.Some? then Ok(LossRate(lossRate.value))
        else if lossRandom then Ok(LossRandom)
        else Ok(NoLoss);
      match (policy, ParseDTag(dtag))
      case (Err(e), _) => Err(e)
      case (Ok(_), Err(e)) => Err(e)
      case (Ok(p), Ok(t)) => Ok(Config(p, t))
  }
}
