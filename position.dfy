/**
 * The position service: configuration and its validation, the one-shot
 * lifecycle, and Default, which draws one coordinate per dimension from the
 * random collaborator and renders the draw as comma-separated decimals.
 */
module Position {
  import opened Wrappers
  import Encoding
  import Decimal
  import Strings

  /** Errors the service returns. maskAny/maskAnyf keep the kind, so only kinds are modelled. */
  datatype Error =
    | InvalidConfig(message: string)   // invalidConfigError, raised by NewService
    | RandomError(message: string)     // an error reported by the random collaborator

  const RandomServiceEmpty: string := "random service must not be empty"
  const DimensionCountEmpty: string := "dimension count must not be empty"
  const DimensionDepthEmpty: string := "dimension depth must not be empty"

  /** A handle on the random collaborator; its internals are not part of this model. */
  datatype RandomService = RandomService(handle: nat)

  /** ServiceConfig; a nil RandomService is None. */
  datatype ServiceConfig = ServiceConfig(
    randomService: Option<RandomService>,
    dimensionCount: int,
    dimensionDepth: int)

  /**
   * DefaultServiceConfig. `newRandom` is the outcome of creating the default
   * random service (its error message on failure); where the source panics on
   * that error, the model fails with it.
   */
  function DefaultServiceConfig(newRandom: Result<RandomService, string>): (r: Result<ServiceConfig, Error>)
    ensures r.Failure? <==> newRandom.Failure?
    ensures r.Failure? ==> r.error == RandomError(newRandom.error)
    ensures r.Success? ==> r.value.randomService.Some? && r.value.dimensionCount == 0 && r.value.dimensionDepth == 0
  {
    match newRandom
    case Failure(message) => Failure(RandomError(message))
    case Success(random) => Success(ServiceConfig(Some(random), 0, 0))
  }

  /**
   * The checks NewService makes, in the source's order: the random dependency,
   * then the dimension count, then the dimension depth. Only zero is rejected.
   */
  function CheckConfig(config: ServiceConfig): (err: Option<Error>)
    ensures err.None? <==> config.randomService.Some? && config.dimensionCount != 0 && config.dimensionDepth != 0
    ensures config.randomService.None? ==> err == Some(InvalidConfig(RandomServiceEmpty))
    ensures config.randomService.Some? && config.dimensionCount == 0 ==> err == Some(InvalidConfig(DimensionCountEmpty))
    ensures config.randomService.Some? && config.dimensionCount != 0 && config.dimensionDepth == 0
      ==> err == Some(InvalidConfig(DimensionDepthEmpty))
  {
    if config.randomService.None? then Some(InvalidConfig(RandomServiceEmpty))
    else if config.dimensionCount == 0 then Some(InvalidConfig(DimensionCountEmpty))
    else if config.dimensionDepth == 0 then Some(InvalidConfig(DimensionDepthEmpty))
    else None
  }

  /** The configuration DefaultServiceConfig yields is always rejected, on the dimension count. */
  lemma DefaultServiceConfigRejected(newRandom: Result<RandomService, string>)
    requires DefaultServiceConfig(newRandom).Success?
    ensures CheckConfig(DefaultServiceConfig(newRandom).value) == Some(InvalidConfig(DimensionCountEmpty))
  {
  }

  /** Negative dimension settings pass validation. */
  lemma NegativeSettingsAccepted(random: RandomService, count: int, depth: int)
    requires count < 0 && depth < 0
    ensures CheckConfig(ServiceConfig(Some(random), count, depth)) == None
  {
  }

  /**
   * NewService: validates the configuration and, when it is valid, allocates a
   * service that has neither booted nor shut down and keeps the configured settings.
   */
  method NewService(config: ServiceConfig) returns (s: Service?, err: Option<Error>)
    ensures err == CheckConfig(config)
    ensures err.Some? ==> s == null
    ensures err.None? ==> s != null && fresh(s) && s.Valid() && !s.bootDone && !s.shutdownDone
    ensures err.None? ==> s.random == config.randomService.value
    ensures err.None? ==> s.dimensionCount == config.dimensionCount && s.dimensionDepth == config.dimensionDepth
  {
    err := CheckConfig(config);
    if err.Some? {
      s := null;
    } else {
      s := new Service(config.randomService.value, config.dimensionCount, config.dimensionDepth);
    }
  }

  /** The service object. The settings never change after construction. */
  class Service {
    const random: RandomService
    const dimensionCount: int
    const dimensionDepth: int

    /** bootOnce has run. */
    var bootDone: bool
    /** shutdownOnce has run. */
    var shutdownDone: bool
    /** The closer channel has been closed. */
    var closerClosed: bool
    /** How many times the closer channel has been closed. */
    ghost var closeCount: nat

    /** The closer is closed exactly when shutdown ran, and never more than once. */
    ghost predicate Valid()
      reads this
    {
      && closerClosed == shutdownDone
      && closeCount == (if closerClosed then 1 else 0)
    }

    constructor (random: RandomService, dimensionCount: int, dimensionDepth: int)
      ensures Valid()
      ensures this.random == random
      ensures this.dimensionCount == dimensionCount && this.dimensionDepth == dimensionDepth
      ensures !bootDone && !shutdownDone && !closerClosed
    {
      this.random := random;
      this.dimensionCount := dimensionCount;
      this.dimensionDepth := dimensionDepth;
      bootDone := false;
      shutdownDone := false;
      closerClosed := false;
      closeCount := 0;
    }

    /** Boot runs its (empty) body once; nothing but the once flag changes. */
    method Boot()
      requires Valid()
      modifies this`bootDone
      ensures Valid() && bootDone
    {
      if !bootDone {
        bootDone := true;
      }
    }

    /** close(closer). Closing a closed channel panics in Go, so it may not be called twice. */
    method CloseCloser()
      requires !closerClosed
      modifies this`closerClosed, this`closeCount
      ensures closerClosed && closeCount == old(closeCount) + 1
    {
      closerClosed := true;
      closeCount := closeCount + 1;
    }

    /**
     * Shutdown closes the closer on the first call only; later calls change
     * nothing and cannot fail, because the channel is closed exactly once.
     */
    method Shutdown()
      requires Valid()
      modifies this`shutdownDone, this`closerClosed, this`closeCount
      ensures Valid() && shutdownDone && closerClosed && closeCount == 1
      ensures old(shutdownDone) ==> closeCount == old(closeCount)
    {
      if !shutdownDone {
        shutdownDone := true;
        CloseCloser();
      }
    }

    /**
     * Default: asks createNMax (the random collaborator) for dimensionCount
     * numbers bounded by dimensionDepth. On failure the position is "" and the
     * collaborator's error is passed on; otherwise the position is the draw's text.
     */
    method Default(createNMax: (int, int) -> Result<seq<int>, string>) returns (position: string, err: Option<Error>)
      ensures createNMax(dimensionCount, dimensionDepth).Failure? ==>
        position == "" && err == Some(RandomError(createNMax(dimensionCount, dimensionDepth).error))
      ensures createNMax(dimensionCount, dimensionDepth).Success? ==>
        err == None && position == Encoding.Encode(createNMax(dimensionCount, dimensionDepth).value)
    {
      var draw := createNMax(dimensionCount, dimensionDepth);
      if draw.Failure? {
        return "", Some(RandomError(draw.error));
      }
      var nums := draw.value;
      var coordinates: seq<string> := [];
      for i := 0 to |nums|
        invariant coordinates == Encoding.Fields(nums[..i])
      {
        coordinates := coordinates + [Decimal.Itoa(nums[i])];
      }
      assert nums[..|nums|] == nums;
      position := Strings.Join(coordinates, Encoding.Separator);
      err := None;
    }
  }
}
