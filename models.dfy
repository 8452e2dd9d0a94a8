/**
 * `models.py`, the models of the legacy application: the variable store,
 * the users looked up by Steam ID, the market ads and the RWR account
 * claim procedure. Instants are integer microseconds since the epoch,
 * the precision of the `arrow` values the source compares.
 */
module Models {
  import opened Wrappers
  import opened Decimal
  import opened PyValues
  import RwrsModels

  // ---------------------------------------------------------------- Variable

  /**
   * The `value` setter: every `int` (booleans included) is tagged
   * `INTEGER`, a `str` is tagged `STRING`, anything else (`None`, a list)
   * is a `ValueError`. The getter is `RwrsModels.Decode`: both applications
   * read a variable alike.
   */
  function Encode(value: PyValue): (r: Result<(RwrsModels.VariableType, PyValue), ConversionError>)
    ensures r.Failure? <==> value.PyNone? || value.PyList?
    ensures r.Success? && r.value.0 == RwrsModels.StringType <==> value.PyStr?
    ensures r.Success? ==> r.value.0 != RwrsModels.BoolType && r.value.1.PyStr?
  {
    if IsInstanceInt(value) then Success((RwrsModels.IntegerType, PyStr(IntText(value))))
    else if value.PyStr? then Success((RwrsModels.StringType, value))
    else Failure(ValueError)
  }

  /** Every integer, zero included (its text `"0"` is not empty), reads back as itself. */
  lemma IntegerRoundTrip(i: int)
    ensures Encode(PyInt(i)) == Success((RwrsModels.IntegerType, PyStr(IntToString(i))))
    ensures RwrsModels.Decode(RwrsModels.IntegerType, PyStr(IntToString(i))) == Success(PyInt(i))
  {
    IntToStringRoundTrip(i);
    assert IntOf(PyStr(IntToString(i))) == Success(i);
    assert Truthy(PyStr(IntToString(i)));
  }

  /** A string is stored as it is and read back unchanged. */
  lemma StringRoundTrip(s: string)
    ensures Encode(PyStr(s)) == Success((RwrsModels.StringType, PyStr(s)))
    ensures RwrsModels.Decode(RwrsModels.StringType, PyStr(s)) == Success(PyStr(s))
  {
  }

  /** Both booleans are tagged `INTEGER` as `"True"` or `"False"`, which the getter cannot read back. */
  lemma BoolAsWritten(b: bool)
    ensures Encode(PyBool(b)) == Success((RwrsModels.IntegerType, PyStr(if b then "True" else "False")))
    ensures RwrsModels.Decode(RwrsModels.IntegerType, PyStr(if b then "True" else "False")) == Failure(ValueError)
  {
    var text := IntText(PyBool(b));
    BoolTextNotInt(b);
    assert Encode(PyBool(b)) == Success((RwrsModels.IntegerType, PyStr(text)));
    assert RwrsModels.Decode(RwrsModels.IntegerType, PyStr(text)) == Failure(ValueError);
  }

  /** The setter with `bool` tested first, so that its `BOOL` branch (`str(int(value))`) is reached. */
  function EncodeChecked(value: PyValue): (r: Result<(RwrsModels.VariableType, PyValue), ConversionError>)
    ensures r.Failure? <==> value.PyNone? || value.PyList?
    ensures value.PyBool? ==> r.Success? && r.value.0 == RwrsModels.BoolType
  {
    if value.PyBool? then Success((RwrsModels.BoolType, PyStr(IntText(PyInt(if value.b then 1 else 0)))))
    else if value.PyInt? then Success((RwrsModels.IntegerType, PyStr(IntText(value))))
    else if value.PyStr? then Success((RwrsModels.StringType, value))
    else Failure(ValueError)
  }

  /** A boolean is tagged `BOOL`, stored as `"1"` or `"0"`, and reads back as itself. */
  lemma BoolCheckedRoundTrip(b: bool)
    ensures EncodeChecked(PyBool(b)) == Success((RwrsModels.BoolType, PyStr(IntToString(if b then 1 else 0))))
    ensures RwrsModels.Decode(RwrsModels.BoolType, PyStr(IntToString(if b then 1 else 0))) == Success(PyBool(b))
  {
    BoolCheckedRead(if b then 1 else 0);
  }

  /** The text `"1"` or `"0"` of a `BOOL` variable reads back as the boolean it encodes. */
  lemma BoolCheckedRead(i: int)
    requires i == 0 || i == 1
    ensures RwrsModels.Decode(RwrsModels.BoolType, PyStr(IntToString(i))) == Success(PyBool(i == 1))
  {
    var text := IntToString(i);
    IntToStringRoundTrip(i);
    assert IntOf(PyStr(text)) == Success(i);
    assert Truthy(PyStr(text));
  }

  /** With `bool` tested first, every value the setter accepts reads back as itself. */
  lemma CheckedRoundTrip(value: PyValue)
    requires EncodeChecked(value).Success?
    ensures RwrsModels.Decode(EncodeChecked(value).value.0, EncodeChecked(value).value.1) == Success(value)
  {
    match value {
      case PyBool(b) => BoolCheckedRoundTrip(b);
      case PyInt(i) => IntegerRoundTrip(i);
      case PyStr(s) => StringRoundTrip(s);
      case PyNone =>
      case PyList(_) =>
    }
  }

  /** A stored variable: its name, type tag and `_value`. */
  class Variable {
    var name: string
    var varType: RwrsModels.VariableType
    var stored: PyValue

    constructor (name: string)
      ensures this.name == name && varType == RwrsModels.StringType && stored == PyNone
    {
      this.name := name;
      varType := RwrsModels.StringType;
      stored := PyNone;
    }

    /** The `value` getter. */
    function Value(): (r: Result<PyValue, ConversionError>)
      reads this
      ensures r == RwrsModels.Decode(varType, stored)
    {
      RwrsModels.Decode(varType, stored)
    }

    /**
     * The `value` setter, with the `bool` test moved before the `int` test
     * (`EncodeChecked`): a `ValueError` leaves both fields as they were, and
     * whatever is accepted is read back as itself.
     */
    method SetValue(value: PyValue) returns (r: Result<(), ConversionError>)
      modifies this
      ensures name == old(name)
      ensures r.Failure? <==> EncodeChecked(value).Failure?
      ensures r.Failure? ==> varType == old(varType) && stored == old(stored)
      ensures r.Success? ==> (varType, stored) == EncodeChecked(value).value
      ensures r.Success? ==> Value() == Success(value)
    {
      if value.PyBool? {
        varType := RwrsModels.BoolType;
        stored := PyStr(IntText(PyInt(if value.b then 1 else 0)));
      } else if value.PyInt? {
        varType := RwrsModels.IntegerType;
        stored := PyStr(IntText(value));
      } else if value.PyStr? {
        varType := RwrsModels.StringType;
        stored := value;
      } else {
        return Failure(ValueError);
      }
      CheckedRoundTrip(value);
      return Success(());
    }
  }

  // ---------------------------------------------------------------- User

  /** A site user; `id` is `None` until the row is saved. */
  datatype SiteUser = SiteUser(id: Option<int>, steamId: string)

  /** The first stored user with the Steam ID, in the order the query returns them. */
  function FirstBySteamId(users: seq<SiteUser>, steamId: string): (r: Option<nat>)
    ensures r.Some? ==> r.value < |users| && users[r.value].steamId == steamId
    ensures r.Some? ==> forall k :: 0 <= k < r.value ==> users[k].steamId != steamId
    ensures r.None? ==> forall k :: 0 <= k < |users| ==> users[k].steamId != steamId
  {
    if users == [] then None
    else if users[0].steamId == steamId then Some(0)
    else match FirstBySteamId(users[1..], steamId)
      case None => None
      case Some(k) => Some(k + 1)
  }

  /** `User.get_by_steam_id`: the stored user, or with `create_if_unexisting` a new unsaved one. */
  function GetBySteamId(users: seq<SiteUser>, steamId: string, create: bool): (r: Option<SiteUser>)
    ensures r.Some? ==> r.value.steamId == steamId
    ensures r.None? <==> !create && forall k :: 0 <= k < |users| ==> users[k].steamId != steamId
    ensures r.Some? && r.value !in users ==> create && r.value == SiteUser(None, steamId)
  {
    match FirstBySteamId(users, steamId)
    case Some(k) => Some(users[k])
    case None => if create then Some(SiteUser(None, steamId)) else None
  }

  /** A user is only built when none has the Steam ID; a stored one is returned otherwise. */
  lemma CreatesOnlyWhenMissing(users: seq<SiteUser>, steamId: string, create: bool)
    ensures (exists k :: 0 <= k < |users| && users[k].steamId == steamId) ==>
      GetBySteamId(users, steamId, create).Some? && GetBySteamId(users, steamId, create).value in users
  {
    if k :| 0 <= k < |users| && users[k].steamId == steamId {
      var first := FirstBySteamId(users, steamId);
      assert first.Some?;
    }
  }

  // ---------------------------------------------------------------- MarketAd

  datatype MarketAdType = Offer | Request

  /** A market ad's price fields; `adType` is unset on an ad not loaded from the database. */
  datatype MarketAd = MarketAd(adType: Option<MarketAdType>, unitPrice: int, quantity: int)

  /** `total_price`. */
  function TotalPrice(ad: MarketAd): (r: int)
    ensures r == 0 <==> ad.quantity == 0 || ad.unitPrice == 0
    ensures ad.quantity >= 0 && ad.unitPrice >= 0 ==> r >= 0
  {
    ad.quantity * ad.unitPrice
  }

  /** `is_free`: the total is nothing exactly when the quantity or the unit price is nothing. */
  predicate IsFree(ad: MarketAd)
    ensures IsFree(ad) <==> ad.quantity == 0 || ad.unitPrice == 0
  {
    TotalPrice(ad) == 0
  }

  /** The URL segment of an ad's type. */
  function TypeForUrl(ad: MarketAd): (r: string)
    ensures r == "offers" <==> ad.adType == Some(Offer)
    ensures r == "requests" <==> ad.adType == Some(Request)
    ensures r == "unknown" <==> ad.adType.None?
  {
    match ad.adType
    case Some(Offer) => "offers"
    case Some(Request) => "requests"
    case None => "unknown"
  }

  /** Two ads share a URL segment exactly when they share a type. */
  lemma TypeForUrlDistinct(a: MarketAd, b: MarketAd)
    ensures TypeForUrl(a) == TypeForUrl(b) <==> a.adType == b.adType
  {
  }

  // ---------------------------------------------------------------- RwrAccount claims

  const MicrosPerSecond: nat := 1_000_000
  const MicrosPerMinute: nat := 60_000_000

  /** `floor(unit)` on an instant: the start of the second or minute it falls in. */
  function FloorTo(instant: int, unit: nat): (r: int)
    requires unit > 0
    ensures r <= instant < r + unit
    ensures r == (instant / unit) * unit
  {
    assert instant == (instant / unit) * unit + instant % unit;
    instant - instant % unit
  }

  /** The deadline `init_claim` sets: the current second plus the claim delay. */
  function ClaimDeadline(now: int, delayMinutes: int): (r: int)
    ensures r % MicrosPerSecond == 0
    ensures r - delayMinutes * MicrosPerMinute <= now < r - delayMinutes * MicrosPerMinute + MicrosPerSecond
  {
    FloorTo(now, MicrosPerSecond) + delayMinutes * MicrosPerMinute
  }

  /** With a positive delay a claim is open when it starts, and over once the delay has elapsed. */
  lemma ClaimWindow(now: int, delayMinutes: int)
    requires delayMinutes > 0
    ensures now < ClaimDeadline(now, delayMinutes)
    ensures now + delayMinutes * MicrosPerMinute >= ClaimDeadline(now, delayMinutes)
  {
    assert delayMinutes * MicrosPerMinute >= MicrosPerMinute;
  }

  /** An RWR account's owner and claim procedure fields. */
  class RwrAccount {
    var userId: Option<int>
    var claimedAt: Option<int>
    var claimInitiatedByUserId: Option<int>
    var claimPossibleUntil: Option<int>

    constructor ()
      ensures userId.None? && claimedAt.None? && claimInitiatedByUserId.None? && claimPossibleUntil.None?
    {
      userId := None;
      claimedAt := None;
      claimInitiatedByUserId := None;
      claimPossibleUntil := None;
    }

    /** A claim is pending exactly when it has both an initiator and a deadline. */
    predicate Valid()
      reads this
    {
      claimInitiatedByUserId.Some? <==> claimPossibleUntil.Some?
    }

    /** `init_claim`: `user` has until the deadline to prove the account is theirs. */
    method InitClaim(user: int, now: int, delayMinutes: int)
      modifies this
      ensures claimInitiatedByUserId == Some(user)
      ensures claimPossibleUntil == Some(ClaimDeadline(now, delayMinutes))
      ensures userId == old(userId) && claimedAt == old(claimedAt)
      ensures Valid()
    {
      claimInitiatedByUserId := Some(user);
      claimPossibleUntil := Some(FloorTo(now, MicrosPerSecond) + delayMinutes * MicrosPerMinute);
    }

    /** `reset_claim`. */
    method ResetClaim()
      modifies this
      ensures claimInitiatedByUserId.None? && claimPossibleUntil.None?
      ensures userId == old(userId) && claimedAt == old(claimedAt)
      ensures Valid()
    {
      claimInitiatedByUserId := None;
      claimPossibleUntil := None;
    }

    /** `claim`: `user` owns the account from the current minute, and no claim is pending any more. */
    method Claim(user: int, now: int)
      modifies this
      ensures userId == Some(user) && claimedAt == Some(FloorTo(now, MicrosPerMinute))
      ensures claimInitiatedByUserId.None? && claimPossibleUntil.None?
      ensures Valid()
    {
      userId := Some(user);
      claimedAt := Some(FloorTo(now, MicrosPerMinute));
      ResetClaim();
    }

    /**
     * `has_claim_expired`: at or after the deadline the claim is reset and
     * the answer is `True`; before it nothing changes. Comparing with an
     * unset deadline is a `TypeError`.
     */
    method HasClaimExpired(now: int) returns (r: Result<bool, ConversionError>)
      modifies this
      ensures old(claimPossibleUntil).None? ==> r == Failure(TypeError)
      ensures old(claimPossibleUntil).Some? ==> r.Success? && (r.value <==> now >= old(claimPossibleUntil).value)
      ensures r == Success(true) ==> claimInitiatedByUserId.None? && claimPossibleUntil.None?
      ensures r != Success(true) ==> claimInitiatedByUserId == old(claimInitiatedByUserId)
      ensures r != Success(true) ==> claimPossibleUntil == old(claimPossibleUntil)
      ensures userId == old(userId) && claimedAt == old(claimedAt)
      ensures old(Valid()) ==> Valid()
    {
      if claimPossibleUntil.None? {
        return Failure(TypeError);
      }
      if now >= claimPossibleUntil.value {
        ResetClaim();
        return Success(true);
      }
      return Success(false);
    }
  }
}
