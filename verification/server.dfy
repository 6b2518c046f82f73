/**
 * The pure parts of the HTTP server: validation and encoding of the LED and
 * relay switch states, their read-back, the weather-code tables, the UV
 * banding, the forecast location and the image-upload checks.
 */
module Server {
  import opened Options
  import opened Seqs

  // ---------------------------------------------------------------------
  // Switch status (LED and relay)
  // ---------------------------------------------------------------------

  datatype Switch = On | Off

  /** Outcome of an update request: a 400 reply, or one integer point written. */
  datatype UpdateResult = BadRequest | Write(value: int)

  /** Outcome of a status read: a 404 reply, or the `status` field sent back. */
  datatype ReadResult = NotFound | Found(status: string)

  /** The query text naming a switch state. */
  function Name(s: Switch): string
  {
    match s
    case On => "on"
    case Off => "off"
  }

  /** `numericStatus`: on is stored as 1, off as 0. */
  function Encode(s: Switch): (v: int)
    ensures v == 0 || v == 1
    ensures v == 1 <==> s == On
  {
    if s == On then 1 else 0
  }

  /** Read-back: the stored value 1 is on, and every other value is off. */
  function Decode(v: int): (s: Switch)
    ensures s == On <==> v == 1
  {
    if v == 1 then On else Off
  }

  /**
   * The update endpoints (`update-led-status`, `update-relay-status`): the
   * `status` query parameter must be exactly "on" or "off"; anything else,
   * including a missing parameter, is answered with 400 and writes nothing.
   */
  function UpdateStatus(status: Option<string>): (r: UpdateResult)
    ensures r == BadRequest <==> status != Some("on") && status != Some("off")
    ensures r.Write? ==> exists s: Switch :: status == Some(Name(s)) && r.value == Encode(s)
  {
    if status == Some("on") then Write(Encode(On))
    else if status == Some("off") then Write(Encode(Off))
    else BadRequest
  }

  /**
   * The status endpoints: `results` is what the "last point" query
   * returned, newest first.  No point is a 404; otherwise the first
   * point's value is decoded.
   */
  function ReadStatus(results: seq<int>): (r: ReadResult)
    ensures r == NotFound <==> |results| == 0
    ensures r.Found? ==> r.status == Name(Decode(results[0]))
    ensures r.Found? ==> (r.status == "on" <==> results[0] == 1)
  {
    if |results| == 0 then NotFound else Found(Name(Decode(results[0])))
  }

  /** Decoding undoes encoding. */
  lemma DecodeEncode(s: Switch)
    ensures Decode(Encode(s)) == s
  {
  }

  /**
   * A successful update followed by a read-back returns the very string
   * that was sent, whatever older points the store still holds.
   */
  lemma UpdateThenRead(status: Option<string>, older: seq<int>)
    requires UpdateStatus(status).Write?
    ensures ReadStatus([UpdateStatus(status).value] + older) == Found(status.value)
  {
    var s :| status == Some(Name(s)) && UpdateStatus(status).value == Encode(s);
    DecodeEncode(s);
  }

  // ---------------------------------------------------------------------
  // Weather codes
  // ---------------------------------------------------------------------

  /** A probability in percent, or the text "Unknown". */
  datatype Chance = Unknown | Percent(p: int)

  /** The twenty-three non-zero codes the three tables list. */
  const LISTED: set<int> := {
    1000, 1100, 1101, 1102, 1001, 2000, 2100,
    4000, 4001, 4200, 4201,
    5000, 5001, 5100, 5101,
    6000, 6001, 6200, 6201,
    7000, 7101, 7102, 8000
  }

  /** `weatherType`: the label of a weather code. */
  function WeatherType(code: int): (r: string)
    ensures r == "Unknown" <==> code !in LISTED
  {
    match code
    case 1000 => "Clear, Sunny"
    case 1100 => "Mostly Clear"
    case 1101 => "Partly Cloudy"
    case 1102 => "Mostly Cloudy"
    case 1001 => "Cloudy"
    case 2000 => "Fog"
    case 2100 => "Light Fog"
    case 4000 => "Drizzle"
    case 4001 => "Rain"
    case 4200 => "Light Rain"
    case 4201 => "Heavy Rain"
    case 5000 => "Snow"
    case 5001 => "Flurries"
    case 5100 => "Light Snow"
    case 5101 => "Heavy Snow"
    case 6000 => "Freezing Drizzle"
    case 6001 => "Freezing Rain"
    case 6200 => "Light Freezing Rain"
    case 6201 => "Heavy Freezing Rain"
    case 7000 => "Ice Pellets"
    case 7101 => "Heavy Ice Pellets"
    case 7102 => "Light Ice Pellets"
    case 8000 => "Thunderstorm"
    case _ => "Unknown"
  }

  /** `rainProb`: the rain probability attached to a weather code. */
  function RainProb(code: int): (r: Chance)
    ensures r == Unknown <==> code !in LISTED
    ensures r.Percent? ==> 0 <= r.p <= 100
  {
    match code
    case 1000 => Percent(0)
    case 1100 => Percent(5)
    case 1101 => Percent(10)
    case 1102 => Percent(15)
    case 1001 => Percent(20)
    case 2000 => Percent(10)
    case 2100 => Percent(5)
    case 4000 => Percent(30)
    case 4001 => Percent(70)
    case 4200 => Percent(40)
    case 4201 => Percent(90)
    case 5000 => Percent(50)
    case 5001 => Percent(20)
    case 5100 => Percent(40)
    case 5101 => Percent(80)
    case 6000 => Percent(30)
    case 6001 => Percent(60)
    case 6200 => Percent(40)
    case 6201 => Percent(90)
    case 7000 => Percent(50)
    case 7101 => Percent(80)
    case 7102 => Percent(30)
    case 8000 => Percent(100)
    case _ => Unknown
  }

  /** `snowProb`: the snow probability attached to a weather code. */
  function SnowProb(code: int): (r: Chance)
    ensures r == Unknown <==> code !in LISTED
    ensures r.Percent? ==> 0 <= r.p <= 100
  {
    match code
    case 1000 => Percent(0)
    case 1100 => Percent(0)
    case 1101 => Percent(0)
    case 1102 => Percent(0)
    case 1001 => Percent(0)
    case 2000 => Percent(0)
    case 2100 => Percent(0)
    case 4000 => Percent(0)
    case 4001 => Percent(0)
    case 4200 => Percent(0)
    case 4201 => Percent(0)
    case 5000 => Percent(80)
    case 5001 => Percent(30)
    case 5100 => Percent(50)
    case 5101 => Percent(100)
    case 6000 => Percent(10)
    case 6001 => Percent(10)
    case 6200 => Percent(20)
    case 6201 => Percent(40)
    case 7000 => Percent(50)
    case 7101 => Percent(70)
    case 7102 => Percent(30)
    case 8000 => Percent(10)
    case _ => Unknown
  }

  /**
   * The three tables cover the same codes: a code is "Unknown" in one of
   * them exactly when it is "Unknown" in all three, and code 0 is unknown.
   */
  lemma TablesShareDomain(code: int)
    ensures WeatherType(code) == "Unknown" <==> RainProb(code) == Unknown
    ensures RainProb(code) == Unknown <==> SnowProb(code) == Unknown
    ensures WeatherType(0) == "Unknown" && RainProb(0) == Unknown && SnowProb(0) == Unknown
  {
  }

  /** A code whose label mentions no precipitation (the clear, cloudy and fog codes) never snows. */
  lemma DryCodesNoSnow(code: int)
    requires code in {1000, 1100, 1101, 1102, 1001, 2000, 2100}
    ensures SnowProb(code) == Percent(0)
    ensures RainProb(code).Percent? && RainProb(code).p <= 20
  {
  }

  // ---------------------------------------------------------------------
  // UV index
  // ---------------------------------------------------------------------

  datatype UvBand = Low | Moderate | High | VeryHigh | Extreme

  /** The band's position in the scale, from Low = 0 to Extreme = 4. */
  function Rank(b: UvBand): nat
  {
    match b
    case Low => 0
    case Moderate => 1
    case High => 2
    case VeryHigh => 3
    case Extreme => 4
  }

  /** The label sent to clients. */
  function UvLabel(b: UvBand): string
  {
    match b
    case Low => "Low"
    case Moderate => "Moderate"
    case High => "High"
    case VeryHigh => "Very High"
    case Extreme => "Extreme"
  }

  /** `uvType`: bands closed on the right at 2, 5, 7 and 10. */
  function UvType(x: real): (b: UvBand)
    ensures Rank(b) == (if x > 2.0 then 1 else 0) + (if x > 5.0 then 1 else 0)
                     + (if x > 7.0 then 1 else 0) + (if x > 10.0 then 1 else 0)
  {
    if x <= 2.0 then Low
    else if x <= 5.0 then Moderate
    else if x <= 7.0 then High
    else if x <= 10.0 then VeryHigh
    else Extreme
  }

  /** A larger UV index never gets a lower band. */
  lemma UvMonotone(x: real, y: real)
    requires x <= y
    ensures Rank(UvType(x)) <= Rank(UvType(y))
  {
  }

  /** The band boundaries are inclusive: exactly 2, 5, 7 and 10 stay in the lower band. */
  lemma UvBoundaries()
    ensures UvType(2.0) == Low && UvType(5.0) == Moderate
    ensures UvType(7.0) == High && UvType(10.0) == VeryHigh
    ensures UvType(10.5) == Extreme
  {
  }

  // ---------------------------------------------------------------------
  // Location
  // ---------------------------------------------------------------------

  /** `data.location.name.split(",")[0]`. */
  function Location(name: string): (r: string)
    ensures r <= name
    ensures ',' !in r
    ensures |r| < |name| ==> name[|r|] == ','
  {
    BeforeFirst(name, ',')
  }

  /** A name without a comma is reported whole; otherwise it is cut at the first comma. */
  lemma LocationOfPlainName(name: string, rest: string)
    requires ',' !in name
    ensures Location(name) == name
    ensures Location(name + "," + rest) == name
  {
    var s := name + "," + rest;
    assert s[|name|] == ',';
    assert forall i :: 0 <= i < |name| ==> s[i] == name[i];
  }

  // ---------------------------------------------------------------------
  // Image uploads
  // ---------------------------------------------------------------------

  /** The multipart file a request carries. */
  datatype Upload = Upload(mimetype: string, originalname: string)

  datatype UploadCheck = NoUid | NoFile | BadType | Accepted

  /** `style_of_image`: the MIME types both upload endpoints accept. */
  const IMAGE_TYPES: seq<string> := ["image/jpeg", "image/png", "image/gif", "image/webp"]

  /** The checks shared by both endpoints once a uid is not needed or present. */
  function FileCheck(file: Option<Upload>): (r: UploadCheck)
    ensures r != NoUid
    ensures r == NoFile <==> file.None?
    ensures r == Accepted <==> file.Some? && file.value.mimetype in IMAGE_TYPES
  {
    if file.None? then NoFile
    else if file.value.mimetype !in IMAGE_TYPES then BadType
    else Accepted
  }

  /**
   * `/api/v1/upload` (administrator avatar): a missing or empty uid is
   * refused first, then a missing file, then a type outside the list.
   */
  function AvatarUpload(uid: Option<string>, file: Option<Upload>): (r: UploadCheck)
    ensures r == NoUid <==> !Present(uid)
    ensures r == NoFile <==> Present(uid) && file.None?
    ensures r == BadType <==> Present(uid) && file.Some? && file.value.mimetype !in IMAGE_TYPES
    ensures r == Accepted <==> Present(uid) && file.Some? && file.value.mimetype in IMAGE_TYPES
  {
    if !Present(uid) then NoUid else FileCheck(file)
  }

  /** `/api/v1/upload_events`: no uid is asked for; a missing file, then the type. */
  function EventUpload(file: Option<Upload>): (r: UploadCheck)
    ensures r != NoUid
    ensures r == NoFile <==> file.None?
    ensures r == Accepted <==> file.Some? && file.value.mimetype in IMAGE_TYPES
  {
    FileCheck(file)
  }

  /**
   * Both endpoints accept exactly the four image types, and with a uid
   * present the avatar endpoint decides a file exactly as the event one.
   */
  lemma UploadsAgree(uid: string, file: Upload)
    requires uid != ""
    ensures AvatarUpload(Some(uid), Some(file)) == EventUpload(Some(file))
    ensures EventUpload(Some(file)) == Accepted <==>
              file.mimetype == "image/jpeg" || file.mimetype == "image/png"
              || file.mimetype == "image/gif" || file.mimetype == "image/webp"
  {
  }

  /** The uid is checked before the file: a request with neither is refused for its uid. */
  lemma UidCheckedFirst(uid: Option<string>)
    requires !Present(uid)
    ensures AvatarUpload(uid, None) == NoUid
  {
  }
}
