/** The report the agent sends: `Drive` and `CheckIn`, and the field-keyed
    encoding serde derives for them (objects keyed by the Rust field names,
    `None` written as null, a missing optional field read back as `None`). */
module Models {
  import opened Wrappers

  /** One physical storage device. */
  datatype Drive = Drive(model: string, serialNumber: Option<string>, deviceId: string)

  /** One inventory snapshot: six fields, only the user optional, the drives in order. */
  datatype CheckIn = CheckIn(
    hostname: string,
    ipAddress: string,
    loggedInUser: Option<string>,
    laptopSerial: string,
    drives: seq<Drive>,
    timestampUtc: string)

  /** The derived `Clone` of a drive: a field-by-field copy. */
  function CloneDrive(d: Drive): (r: Drive)
    ensures r.model == d.model && r.serialNumber == d.serialNumber && r.deviceId == d.deviceId
    ensures r == d
  {
    Drive(d.model, d.serialNumber, d.deviceId)
  }

  // ---------------------------------------------------------------- encoding

  /** The data model serde serialises into: strings, null, arrays and objects
      whose members carry a key. */
  datatype Value = Str(s: string) | Null | Array(items: seq<Value>) | Object(members: seq<Member>)
  datatype Member = Member(key: string, value: Value)

  /** What looking a key up in an object finds. A derived `Deserialize` rejects a
      key that occurs twice and ignores keys it does not know. */
  datatype Lookup = Missing | Found(v: Value) | Duplicate

  function Find(members: seq<Member>, key: string): (l: Lookup)
    decreases |members|
  {
    if |members| == 0 then Missing
    else
      var rest := Find(members[1..], key);
      if members[0].key != key then rest
      else if rest.Missing? then Found(members[0].value)
      else Duplicate
  }

  /** A key that no member carries is missing. */
  lemma {:induction false} FindAbsent(members: seq<Member>, key: string)
    requires forall j :: 0 <= j < |members| ==> members[j].key != key
    ensures Find(members, key) == Missing
    decreases |members|
  {
    if |members| > 0 {
      FindAbsent(members[1..], key);
    }
  }

  /** A key that occurs exactly once is found with its value. */
  lemma {:induction false} FindUnique(members: seq<Member>, i: nat, key: string)
    requires i < |members| && members[i].key == key
    requires forall j :: 0 <= j < |members| && j != i ==> members[j].key != key
    ensures Find(members, key) == Found(members[i].value)
    decreases |members|
  {
    if i == 0 {
      FindAbsent(members[1..], key);
    } else {
      FindUnique(members[1..], i - 1, key);
    }
  }

  function EncodeOptional(o: Option<string>): Value {
    match o
    case Some(s) => Str(s)
    case None => Null
  }

  function EncodeDrive(d: Drive): Value {
    Object([Member("model", Str(d.model)),
            Member("serial_number", EncodeOptional(d.serialNumber)),
            Member("device_id", Str(d.deviceId))])
  }

  function EncodeDrives(ds: seq<Drive>): (vs: seq<Value>)
    ensures |vs| == |ds|
    decreases |ds|
  {
    if |ds| == 0 then [] else [EncodeDrive(ds[0])] + EncodeDrives(ds[1..])
  }

  function EncodeCheckIn(c: CheckIn): Value {
    Object([Member("hostname", Str(c.hostname)),
            Member("ip_address", Str(c.ipAddress)),
            Member("logged_in_user", EncodeOptional(c.loggedInUser)),
            Member("laptop_serial", Str(c.laptopSerial)),
            Member("drives", Array(EncodeDrives(c.drives))),
            Member("timestamp_utc", Str(c.timestampUtc))])
  }

  // ---------------------------------------------------------------- decoding

  function DecodeString(l: Lookup): Option<string> {
    match l
    case Found(Str(s)) => Some(s)
    case _ => None
  }

  /** An `Option<String>` field: missing or null is `None`; anything but a string
      or null is an error (outer `None`). */
  function DecodeOptional(l: Lookup): Option<Option<string>> {
    match l
    case Missing => Some(None)
    case Found(Null) => Some(None)
    case Found(Str(s)) => Some(Some(s))
    case _ => None
  }

  function DecodeDrive(v: Value): Option<Drive> {
    match v
    case Object(ms) =>
      var model := DecodeString(Find(ms, "model"));
      var serial := DecodeOptional(Find(ms, "serial_number"));
      var device := DecodeString(Find(ms, "device_id"));
      if model.Some? && serial.Some? && device.Some? then
        Some(Drive(model.value, serial.value, device.value))
      else None
    case _ => None
  }

  function DecodeDrives(vs: seq<Value>): Option<seq<Drive>>
    decreases |vs|
  {
    if |vs| == 0 then Some([])
    else
      var d := DecodeDrive(vs[0]);
      var rest := DecodeDrives(vs[1..]);
      if d.Some? && rest.Some? then Some([d.value] + rest.value) else None
  }

  function DecodeCheckIn(v: Value): Option<CheckIn> {
    match v
    case Object(ms) =>
      var hostname := DecodeString(Find(ms, "hostname"));
      var ip := DecodeString(Find(ms, "ip_address"));
      var user := DecodeOptional(Find(ms, "logged_in_user"));
      var serial := DecodeString(Find(ms, "laptop_serial"));
      var drives := match Find(ms, "drives")
                    case Found(Array(items)) => DecodeDrives(items)
                    case _ => None;
      var stamp := DecodeString(Find(ms, "timestamp_utc"));
      if hostname.Some? && ip.Some? && user.Some? && serial.Some? && drives.Some? && stamp.Some? then
        Some(CheckIn(hostname.value, ip.value, user.value, serial.value, drives.value, stamp.value))
      else None
    case _ => None
  }

  // ---------------------------------------------------------------- properties

  lemma DriveRoundTrip(d: Drive)
    ensures DecodeDrive(EncodeDrive(d)) == Some(d)
  {
    var ms := EncodeDrive(d).members;
    FindUnique(ms, 0, "model");
    FindUnique(ms, 1, "serial_number");
    FindUnique(ms, 2, "device_id");
  }

  lemma {:induction false} DrivesRoundTrip(ds: seq<Drive>)
    ensures DecodeDrives(EncodeDrives(ds)) == Some(ds)
    decreases |ds|
  {
    if |ds| > 0 {
      var vs := EncodeDrives(ds);
      assert vs[1..] == EncodeDrives(ds[1..]);
      DriveRoundTrip(ds[0]);
      DrivesRoundTrip(ds[1..]);
      assert [ds[0]] + ds[1..] == ds;
    }
  }

  /** Each of the six keys of an encoded check-in occurs once, with its field's value. */
  lemma EncodedCheckInMembers(c: CheckIn)
    ensures var ms := EncodeCheckIn(c).members;
      && Find(ms, "hostname") == Found(Str(c.hostname))
      && Find(ms, "ip_address") == Found(Str(c.ipAddress))
      && Find(ms, "logged_in_user") == Found(EncodeOptional(c.loggedInUser))
      && Find(ms, "laptop_serial") == Found(Str(c.laptopSerial))
      && Find(ms, "drives") == Found(Array(EncodeDrives(c.drives)))
      && Find(ms, "timestamp_utc") == Found(Str(c.timestampUtc))
  {
    var ms := EncodeCheckIn(c).members;
    FindUnique(ms, 0, "hostname");
    FindUnique(ms, 1, "ip_address");
    FindUnique(ms, 2, "logged_in_user");
    FindUnique(ms, 3, "laptop_serial");
    FindUnique(ms, 4, "drives");
    FindUnique(ms, 5, "timestamp_utc");
  }

  /** Decoding an encoded check-in gives back every field, an absent user and
      absent drive serials included, and an empty drive list stays empty. */
  lemma CheckInRoundTrip(c: CheckIn)
    ensures DecodeCheckIn(EncodeCheckIn(c)) == Some(c)
  {
    EncodedCheckInMembers(c);
    DrivesRoundTrip(c.drives);
  }

  /** A string value is somewhere inside an encoded value. */
  predicate Mentions(v: Value, s: string)
    decreases v
  {
    match v
    case Str(t) => t == s
    case Null => false
    case Array(items) => exists i :: 0 <= i < |items| && Mentions(items[i], s)
    case Object(ms) => exists i :: 0 <= i < |ms| && MentionsMember(ms[i], s)
  }

  predicate MentionsMember(m: Member, s: string)
    decreases m
  {
    Mentions(m.value, s)
  }

  /** The encoding carries the hostname and the laptop serial as the values of
      their own keys, and so mentions both. */
  lemma EncodingCarriesHostnameAndSerial(c: CheckIn)
    ensures EncodeCheckIn(c).Object?
    ensures Find(EncodeCheckIn(c).members, "hostname") == Found(Str(c.hostname))
    ensures Find(EncodeCheckIn(c).members, "laptop_serial") == Found(Str(c.laptopSerial))
    ensures Mentions(EncodeCheckIn(c), c.hostname) && Mentions(EncodeCheckIn(c), c.laptopSerial)
  {
    var ms := EncodeCheckIn(c).members;
    EncodedCheckInMembers(c);
    assert MentionsMember(ms[0], c.hostname);
    assert MentionsMember(ms[3], c.laptopSerial);
  }
}
