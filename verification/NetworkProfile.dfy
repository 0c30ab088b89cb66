/** Network Profiles and Profile Changes: what a change does to a profile, and when it is accepted. */
module NetworkProfile {
  import opened Wrappers

  const INT64_MAX: int := 0x7fff_ffff_ffff_ffff
  const UINT64_MAX: int := 0xffff_ffff_ffff_ffff

  /** `std::chrono::milliseconds::rep`, a signed 64-bit count. */
  type Milliseconds = x: int | -INT64_MAX - 1 <= x <= INT64_MAX
  type UInt64 = x: int | 0 <= x <= UINT64_MAX

  /** A `double`: its exact value when finite. The two zeros compare equal and are one value here. */
  datatype Percent = NotFinite | Finite(value: real)

  datatype Direction = Outbound | Inbound
  datatype Setting = Delay | Jitter | PacketLoss | Bandwidth

  datatype DirectionSettings = DirectionSettings(
    delay: Milliseconds, jitter: Milliseconds, loss: Percent, bandwidth: Option<UInt64>)

  datatype Profile = Profile(outbound: DirectionSettings, inbound: DirectionSettings) {
    function Of(direction: Direction): DirectionSettings {
      if direction.Outbound? then outbound else inbound
    }

    function With(direction: Direction, settings: DirectionSettings): Profile {
      if direction.Outbound? then this.(outbound := settings) else this.(inbound := settings)
    }
  }

  const UNRESTRICTED := DirectionSettings(0, 0, Finite(0.0), None)
  const DEFAULT_PROFILE := Profile(UNRESTRICTED, UNRESTRICTED)

  datatype Change =
    | SetDelay(direction: Direction, value: Milliseconds)
    | SetJitter(direction: Direction, value: Milliseconds)
    | SetLoss(direction: Direction, percent: Percent)
    | SetBandwidth(direction: Direction, kbps: UInt64)
    | Reset(direction: Direction, setting: Setting)
  {
    /** The one setting the change is about. */
    function Target(): Setting {
      match this
      case SetDelay(_, _) => Delay
      case SetJitter(_, _) => Jitter
      case SetLoss(_, _) => PacketLoss
      case SetBandwidth(_, _) => Bandwidth
      case Reset(_, setting) => setting
    }
  }

  /** The message of a validation error, one constructor for each text. */
  datatype Problem = NegativeDelay | NegativeJitter | NotFiniteLoss | LossOutOfRange | ZeroBandwidth
  datatype ValidationError = ValidationError(direction: Direction, setting: Setting, problem: Problem)
  datatype Application = Accepted(profile: Profile) | Rejected(errors: seq<ValidationError>)

  predicate ValidLoss(loss: Percent) {
    loss.Finite? && 0.0 <= loss.value <= 100.0
  }

  predicate ValidSettings(settings: DirectionSettings) {
    && settings.delay >= 0
    && settings.jitter >= 0
    && ValidLoss(settings.loss)
    && settings.bandwidth != Some(0)
  }

  predicate ValidProfile(profile: Profile) {
    ValidSettings(profile.outbound) && ValidSettings(profile.inbound)
  }

  function Push(errors: seq<ValidationError>, wrong: bool, error: ValidationError): seq<ValidationError> {
    if wrong then errors + [error] else errors
  }

  /** The errors `validate_direction` leaves in the vector it is handed. */
  function DirectionErrors(settings: DirectionSettings, direction: Direction, found: seq<ValidationError>)
      : (errors: seq<ValidationError>)
    ensures errors == found <==> ValidSettings(settings)
    ensures found <= errors
    ensures forall i :: |found| <= i < |errors| ==> errors[i].direction == direction
  {
    var e1 := Push(found, settings.delay < 0, ValidationError(direction, Delay, NegativeDelay));
    var e2 := Push(e1, settings.jitter < 0, ValidationError(direction, Jitter, NegativeJitter));
    var e3 := Push(e2, settings.loss.NotFinite?, ValidationError(direction, PacketLoss, NotFiniteLoss));
    var e4 := Push(e3, settings.loss.Finite? && (settings.loss.value < 0.0 || settings.loss.value > 100.0),
                   ValidationError(direction, PacketLoss, LossOutOfRange));
    Push(e4, settings.bandwidth == Some(0), ValidationError(direction, Bandwidth, ZeroBandwidth))
  }

  function Errors(profile: Profile): seq<ValidationError> {
    DirectionErrors(profile.inbound, Inbound, DirectionErrors(profile.outbound, Outbound, []))
  }

  /** `validate` appends the errors of one direction after those of the other. */
  method Validate(profile: Profile) returns (errors: seq<ValidationError>)
    ensures errors == Errors(profile)
    ensures errors == [] <==> ValidProfile(profile)
  {
    errors := [];
    errors := ValidateDirection(profile.outbound, Outbound, errors);
    errors := ValidateDirection(profile.inbound, Inbound, errors);
  }

  method ValidateDirection(settings: DirectionSettings, direction: Direction, found: seq<ValidationError>)
      returns (errors: seq<ValidationError>)
    ensures errors == DirectionErrors(settings, direction, found)
  {
    errors := found;
    if settings.delay < 0 {
      errors := errors + [ValidationError(direction, Delay, NegativeDelay)];
    }
    if settings.jitter < 0 {
      errors := errors + [ValidationError(direction, Jitter, NegativeJitter)];
    }
    if settings.loss.NotFinite? {
      errors := errors + [ValidationError(direction, PacketLoss, NotFiniteLoss)];
    } else if settings.loss.value < 0.0 || settings.loss.value > 100.0 {
      errors := errors + [ValidationError(direction, PacketLoss, LossOutOfRange)];
    }
    if settings.bandwidth == Some(0) {
      errors := errors + [ValidationError(direction, Bandwidth, ZeroBandwidth)];
    }
  }

  /** What each problem is about. */
  predicate Faulty(settings: DirectionSettings, setting: Setting, problem: Problem) {
    match problem
    case NegativeDelay => setting.Delay? && settings.delay < 0
    case NegativeJitter => setting.Jitter? && settings.jitter < 0
    case NotFiniteLoss => setting.PacketLoss? && settings.loss.NotFinite?
    case LossOutOfRange => setting.PacketLoss? && settings.loss.Finite? && !(0.0 <= settings.loss.value <= 100.0)
    case ZeroBandwidth => setting.Bandwidth? && settings.bandwidth == Some(0)
  }

  /** The errors name exactly what is wrong: the direction, the setting and the problem. */
  lemma ErrorsAreExact(profile: Profile, error: ValidationError)
    ensures error in Errors(profile) <==> Faulty(profile.Of(error.direction), error.setting, error.problem)
  {
    DirectionErrorsAreExact(profile.outbound, Outbound, [], error);
    DirectionErrorsAreExact(profile.inbound, Inbound, DirectionErrors(profile.outbound, Outbound, []), error);
    hide DirectionErrors, Faulty;
  }

  lemma DirectionErrorsAreExact(settings: DirectionSettings, direction: Direction, found: seq<ValidationError>,
                                error: ValidationError)
    ensures error in DirectionErrors(settings, direction, found)
            <==> error in found || (error.direction == direction && Faulty(settings, error.setting, error.problem))
  {
  }

  /** The settings of the changed direction after the assignment, before validation. */
  function Assign(settings: DirectionSettings, change: Change): DirectionSettings {
    match change
    case SetDelay(_, value) => settings.(delay := value)
    case SetJitter(_, value) => settings.(jitter := value)
    case SetLoss(_, percent) => settings.(loss := percent)
    case SetBandwidth(_, kbps) => settings.(bandwidth := Some(kbps))
    case Reset(_, Delay) => settings.(delay := 0)
    case Reset(_, Jitter) => settings.(jitter := 0)
    case Reset(_, PacketLoss) => settings.(loss := Finite(0.0))
    case Reset(_, Bandwidth) => settings.(bandwidth := None)
  }

  /** `apply_profile_change`. */
  function Apply(profile: Profile, change: Change): Application {
    var changed := profile.With(change.direction, Assign(profile.Of(change.direction), change));
    var errors := Errors(changed);
    if errors == [] then Accepted(changed) else Rejected(errors)
  }

  /** Copying the profile, assigning to the copy and validating it is `Apply`. */
  method ApplyProfileChange(profile: Profile, change: Change) returns (result: Application)
    ensures result == Apply(profile, change)
  {
    var changed := profile;
    changed := changed.With(change.direction, Assign(changed.Of(change.direction), change));
    var errors := Validate(changed);
    result := if errors != [] then Rejected(errors) else Accepted(changed);
  }

  /** Whether a change names a value that is legal on its own. */
  predicate ValidChange(change: Change) {
    match change
    case SetDelay(_, value) => value >= 0
    case SetJitter(_, value) => value >= 0
    case SetLoss(_, percent) => ValidLoss(percent)
    case SetBandwidth(_, kbps) => kbps > 0
    case Reset(_, _) => true
  }

  /** On a valid profile exactly the changes with a legal value are accepted, and the result is valid: whether a
      change is accepted does not depend on which valid profile it meets. */
  lemma AcceptedIffValid(profile: Profile, change: Change)
    requires ValidProfile(profile)
    ensures Apply(profile, change).Accepted? <==> ValidChange(change)
    ensures Apply(profile, change).Accepted? ==> ValidProfile(Apply(profile, change).profile)
  {
    var changed := profile.With(change.direction, Assign(profile.Of(change.direction), change));
    assert Errors(changed) == [] <==> ValidProfile(changed);
  }

  /** The value a setting has, as one comparable datum. */
  datatype SettingValue = Time(ms: Milliseconds) | Loss(percent: Percent) | Rate(kbps: Option<UInt64>)

  function SettingOf(profile: Profile, direction: Direction, setting: Setting): SettingValue {
    var settings := profile.Of(direction);
    match setting
    case Delay => Time(settings.delay)
    case Jitter => Time(settings.jitter)
    case PacketLoss => Loss(settings.loss)
    case Bandwidth => Rate(settings.bandwidth)
  }

  /** An accepted change moves one setting of one direction and no other; a reset puts its default back. */
  lemma AppliesOneSetting(profile: Profile, change: Change, direction: Direction, setting: Setting)
    requires Apply(profile, change).Accepted?
    ensures var after := SettingOf(Apply(profile, change).profile, direction, setting);
            if direction != change.direction || setting != change.Target() then
              after == SettingOf(profile, direction, setting)
            else match change
              case SetDelay(_, value) => after == Time(value)
              case SetJitter(_, value) => after == Time(value)
              case SetLoss(_, percent) => after == Loss(percent)
              case SetBandwidth(_, kbps) => after == Rate(Some(kbps))
              case Reset(_, _) => after == SettingOf(DEFAULT_PROFILE, direction, setting)
  {
    var after := SettingOf(Apply(profile, change).profile, direction, setting);
    assert direction != change.direction ==> after == SettingOf(profile, direction, setting);
  }
}
