/** DeviceInfo: the device that shares its connectivity, as exchanged between a
    SharedConnectivityService and its clients. Every DeviceInfo is built
    through one validating constructor, so every object that exists satisfies
    the enum and range rules; the object travels as five parcel values. */
module DeviceInfo {
  import opened Wrappers
  import opened Parcel

  const DEVICE_TYPE_UNKNOWN: int32 := 0
  const DEVICE_TYPE_PHONE: int32 := 1
  const DEVICE_TYPE_TABLET: int32 := 2
  const DEVICE_TYPE_LAPTOP: int32 := 3

  datatype DeviceInfo = DeviceInfo(
    deviceType: int32,
    deviceName: string,
    modelName: string,
    batteryPercentage: int32,
    connectionStrength: int32)

  /** The IllegalArgumentException reasons of `validate`, in the order it checks them. */
  datatype InvalidArgument =
    | IllegalDeviceType
    | DeviceNameNotSet
    | ModelNameNotSet
    | BatteryPercentageOutOfRange
    | ConnectionStrengthOutOfRange

  datatype DecodeError =
    | Malformed(cause: ParcelError)
    | IllegalArgument(reason: InvalidArgument)

  predicate IsDeviceType(t: int32) {
    t == DEVICE_TYPE_UNKNOWN || t == DEVICE_TYPE_PHONE || t == DEVICE_TYPE_TABLET || t == DEVICE_TYPE_LAPTOP
  }

  /** The rules every constructed DeviceInfo satisfies. */
  predicate Valid(d: DeviceInfo) {
    && IsDeviceType(d.deviceType)
    && 0 <= d.batteryPercentage <= 100
    && 0 <= d.connectionStrength <= 3
  }

  /** `validate`: the first rule the arguments break, if any. */
  function Validate(deviceType: int32, deviceName: Option<string>, modelName: Option<string>,
                    batteryPercentage: int32, connectionStrength: int32): (r: Option<InvalidArgument>)
    ensures r.None? <==>
              && deviceName.Some? && modelName.Some?
              && Valid(DeviceInfo(deviceType, deviceName.GetOr([]), modelName.GetOr([]),
                                  batteryPercentage, connectionStrength))
    ensures r == Some(IllegalDeviceType) <==> !IsDeviceType(deviceType)
  {
    if !IsDeviceType(deviceType) then Some(IllegalDeviceType)
    else if deviceName.None? then Some(DeviceNameNotSet)
    else if modelName.None? then Some(ModelNameNotSet)
    else if batteryPercentage < 0 || batteryPercentage > 100 then Some(BatteryPercentageOutOfRange)
    else if connectionStrength < 0 || connectionStrength > 3 then Some(ConnectionStrengthOutOfRange)
    else None
  }

  /** The private constructor: validates first, then stores the arguments. */
  function Create(deviceType: int32, deviceName: Option<string>, modelName: Option<string>,
                  batteryPercentage: int32, connectionStrength: int32): (r: Result<DeviceInfo, InvalidArgument>)
    ensures r.Success? <==>
              && IsDeviceType(deviceType) && deviceName.Some? && modelName.Some?
              && 0 <= batteryPercentage <= 100 && 0 <= connectionStrength <= 3
    ensures r.Success? ==>
              && Valid(r.value)
              && r.value.deviceType == deviceType
              && Some(r.value.deviceName) == deviceName
              && Some(r.value.modelName) == modelName
              && r.value.batteryPercentage == batteryPercentage
              && r.value.connectionStrength == connectionStrength
    ensures r == Failure(IllegalDeviceType) <==> !IsDeviceType(deviceType)
    ensures r == Failure(DeviceNameNotSet) <==> IsDeviceType(deviceType) && deviceName.None?
    ensures r == Failure(ModelNameNotSet) <==>
              IsDeviceType(deviceType) && deviceName.Some? && modelName.None?
    ensures r == Failure(BatteryPercentageOutOfRange) <==>
              IsDeviceType(deviceType) && deviceName.Some? && modelName.Some?
              && !(0 <= batteryPercentage <= 100)
  {
    match Validate(deviceType, deviceName, modelName, batteryPercentage, connectionStrength)
    case Some(reason) => Failure(reason)
    case None => Success(DeviceInfo(deviceType, deviceName.value, modelName.value,
                                    batteryPercentage, connectionStrength))
  }

  /** Every DeviceInfo satisfying the rules is the one `Create` makes from its
      own fields: `Valid` describes exactly the objects that can exist. */
  lemma ValidIsConstructible(d: DeviceInfo)
    ensures Valid(d) <==>
              Create(d.deviceType, Some(d.deviceName), Some(d.modelName),
                     d.batteryPercentage, d.connectionStrength) == Success(d)
  {
  }

  // ---------------------------------------------------------------------------
  // Builder

  /** The Builder's fields: Java defaults are 0 for ints and null for strings. */
  datatype Builder = Builder(
    deviceType: int32,
    deviceName: Option<string>,
    modelName: Option<string>,
    batteryPercentage: int32,
    connectionStrength: int32)

  function NewBuilder(): (b: Builder)
    ensures b.deviceName.None? && b.modelName.None?
    ensures b.deviceType == DEVICE_TYPE_UNKNOWN && b.batteryPercentage == 0 && b.connectionStrength == 0
  {
    Builder(0, None, None, 0, 0)
  }

  function SetDeviceType(b: Builder, deviceType: int32): (b': Builder)
    ensures b'.deviceType == deviceType
    ensures b'.(deviceType := b.deviceType) == b
  {
    b.(deviceType := deviceType)
  }

  function SetDeviceName(b: Builder, deviceName: string): (b': Builder)
    ensures b'.deviceName == Some(deviceName)
    ensures b'.(deviceName := b.deviceName) == b
  {
    b.(deviceName := Some(deviceName))
  }

  function SetModelName(b: Builder, modelName: string): (b': Builder)
    ensures b'.modelName == Some(modelName)
    ensures b'.(modelName := b.modelName) == b
  {
    b.(modelName := Some(modelName))
  }

  function SetBatteryPercentage(b: Builder, batteryPercentage: int32): (b': Builder)
    ensures b'.batteryPercentage == batteryPercentage
    ensures b'.(batteryPercentage := b.batteryPercentage) == b
  {
    b.(batteryPercentage := batteryPercentage)
  }

  function SetConnectionStrength(b: Builder, connectionStrength: int32): (b': Builder)
    ensures b'.connectionStrength == connectionStrength
    ensures b'.(connectionStrength := b.connectionStrength) == b
  {
    b.(connectionStrength := connectionStrength)
  }

  /** `build()`: all checking happens here, through the constructor. */
  function Build(b: Builder): (r: Result<DeviceInfo, InvalidArgument>)
    ensures r.Success? ==> Valid(r.value)
    ensures r.Success? ==>
              Builder(r.value.deviceType, Some(r.value.deviceName), Some(r.value.modelName),
                      r.value.batteryPercentage, r.value.connectionStrength) == b
  {
    Create(b.deviceType, b.deviceName, b.modelName, b.batteryPercentage, b.connectionStrength)
  }

  /** A Builder whose names were never set cannot build, whatever else was set. */
  lemma UnnamedBuilderFails(deviceType: int32, batteryPercentage: int32, connectionStrength: int32)
    ensures Build(NewBuilder()).Failure?
    ensures IsDeviceType(deviceType) ==>
              Build(SetConnectionStrength(SetBatteryPercentage(SetDeviceType(NewBuilder(), deviceType),
                                                               batteryPercentage), connectionStrength))
              == Failure(DeviceNameNotSet)
  {
  }

  /** The setters accept any value; the builder that had all five set builds
      exactly when the values obey the rules, and then holds those values. */
  lemma BuilderDefersValidation(deviceType: int32, deviceName: string, modelName: string,
                                batteryPercentage: int32, connectionStrength: int32)
    ensures var b := SetConnectionStrength(SetBatteryPercentage(SetModelName(SetDeviceName(
                       SetDeviceType(NewBuilder(), deviceType), deviceName), modelName),
                       batteryPercentage), connectionStrength);
            && b == Builder(deviceType, Some(deviceName), Some(modelName), batteryPercentage, connectionStrength)
            && (Build(b).Success? <==> Valid(DeviceInfo(deviceType, deviceName, modelName,
                                                        batteryPercentage, connectionStrength)))
            && (Build(b).Success? ==>
                  Build(b).value == DeviceInfo(deviceType, deviceName, modelName, batteryPercentage, connectionStrength))
  {
  }

  // ---------------------------------------------------------------------------
  // equals and hashCode

  /** `equals`: field by field over all five fields. */
  predicate Equals(a: DeviceInfo, b: DeviceInfo) {
    && a.deviceType == b.deviceType
    && a.deviceName == b.deviceName
    && a.modelName == b.modelName
    && a.batteryPercentage == b.batteryPercentage
    && a.connectionStrength == b.connectionStrength
  }

  /** Java `int` arithmetic: the result wrapped to 32 bits. */
  function Wrap32(x: int): int32 {
    ((x + 0x8000_0000) % 0x1_0000_0000 - 0x8000_0000) as int32
  }

  /** String.hashCode: h = 31 * h + c over the characters, in `int` arithmetic. */
  function StringHash(s: string): int32
    decreases |s|
  {
    if s == [] then 0 else Wrap32(31 * StringHash(s[..|s| - 1]) as int + s[|s| - 1] as int)
  }

  /** One step of Objects.hash: result = 31 * result + element hash. */
  function HashStep(acc: int32, h: int32): int32 {
    Wrap32(31 * acc as int + h as int)
  }

  /** `hashCode`: Objects.hash over the same five fields `equals` compares. */
  function HashCode(d: DeviceInfo): int32 {
    var h := HashStep(1, d.deviceType);
    var h := HashStep(h, StringHash(d.deviceName));
    var h := HashStep(h, StringHash(d.modelName));
    var h := HashStep(h, d.batteryPercentage);
    HashStep(h, d.connectionStrength)
  }

  /** `equals` is exactly equality of the records, hence an equivalence, and
      equal objects have equal hash codes. */
  lemma EqualsContract(a: DeviceInfo, b: DeviceInfo)
    ensures Equals(a, b) <==> a == b
    ensures Equals(a, a)
    ensures Equals(a, b) ==> Equals(b, a)
    ensures Equals(a, b) ==> HashCode(a) == HashCode(b)
  {
  }

  /** `equals` compares every field: changing any single one of the five
      makes the objects unequal. */
  lemma EqualsDetectsSingleFieldChange(d: DeviceInfo, t: int32, name: string, model: string,
                                       battery: int32, strength: int32)
    ensures Equals(d, d.(deviceType := t)) <==> t == d.deviceType
    ensures Equals(d, d.(deviceName := name)) <==> name == d.deviceName
    ensures Equals(d, d.(modelName := model)) <==> model == d.modelName
    ensures Equals(d, d.(batteryPercentage := battery)) <==> battery == d.batteryPercentage
    ensures Equals(d, d.(connectionStrength := strength)) <==> strength == d.connectionStrength
  {
  }

  // ---------------------------------------------------------------------------
  // Parcel

  /** writeToParcel: int, string, string, int, int. */
  function Encode(d: DeviceInfo): seq<Token> {
    WriteInt(d.deviceType) + WriteString(Some(d.deviceName)) + WriteString(Some(d.modelName))
    + WriteInt(d.batteryPercentage) + WriteInt(d.connectionStrength)
  }

  /** CREATOR.createFromParcel: reads the five values in the order they were
      written and passes them to the validating constructor. */
  function Decode(p: seq<Token>): (r: Result<Read<DeviceInfo>, DecodeError>)
    ensures r.Success? ==> Valid(r.value.value)
    ensures r.Success? ==> p == Encode(r.value.value) + r.value.rest
  {
    var deviceType :- ReadInt(p).MapFailure(e => Malformed(e));
    var deviceName :- ReadString(deviceType.rest).MapFailure(e => Malformed(e));
    var modelName :- ReadString(deviceName.rest).MapFailure(e => Malformed(e));
    var battery :- ReadInt(modelName.rest).MapFailure(e => Malformed(e));
    var strength :- ReadInt(battery.rest).MapFailure(e => Malformed(e));
    var d :- Create(deviceType.value, deviceName.value, modelName.value, battery.value, strength.value)
             .MapFailure(e => IllegalArgument(e));
    Success(Read(d, strength.rest))
  }

  /** Decoding what `Encode` wrote gives the same object back and consumes
      exactly its five values. */
  lemma RoundTrip(d: DeviceInfo, rest: seq<Token>)
    requires Valid(d)
    ensures Decode(Encode(d) + rest) == Success(Read(d, rest))
  {
    var p := Encode(d) + rest;
    assert p == [IntToken(d.deviceType), StringToken(Some(d.deviceName)), StringToken(Some(d.modelName)),
                 IntToken(d.batteryPercentage), IntToken(d.connectionStrength)] + rest;
    ValidIsConstructible(d);
  }

  /** A parcel holding a null name, or values that break the rules, does not
      decode: the check runs on the receiving side too. */
  lemma DecodeRejectsInvalid(t: int32, name: Option<string>, model: Option<string>,
                             battery: int32, strength: int32, rest: seq<Token>)
    ensures var p := [IntToken(t), StringToken(name), StringToken(model), IntToken(battery), IntToken(strength)] + rest;
            Decode(p).Failure? <==> Validate(t, name, model, battery, strength).Some?
  {
    var p := [IntToken(t), StringToken(name), StringToken(model), IntToken(battery), IntToken(strength)] + rest;
    assert p[1..] == [StringToken(name), StringToken(model), IntToken(battery), IntToken(strength)] + rest;
    assert p[2..] == [StringToken(model), IntToken(battery), IntToken(strength)] + rest;
    assert p[3..] == [IntToken(battery), IntToken(strength)] + rest;
    assert p[4..] == [IntToken(strength)] + rest;
  }
}
