/**
 * The user record of models/User.js: roles, schema defaults, the required
 * validator and the pre-save hook that assigns the display id and hashes
 * a newly written password.
 */
module UserModel {
  import opened Wrappers
  import opened Text
  import opened ObjectIds

  datatype Role = Patient | Doctor | Superadmin

  /**
   * A password as stored: `Plain` between an assignment and the next save,
   * `Hashed` afterwards. bcrypt is taken to be an ideal hash, so `Hashed(p)`
   * matches exactly the entered password `p`.
   */
  datatype Secret = Plain(text: string) | Hashed(of: string)

  datatype Otp = Otp(code: string, expiresAt: int)

  /** Text fields that are absent hold "". */
  datatype User = User(
    name: string,
    email: string,
    phone: string,
    password: Secret,
    role: Role,
    specialization: string,
    profileCreated: bool,
    otp: Option<Otp>,
    displayId: string,
    isDeleted: bool,
    createdAt: int)

  const RoleNames: seq<string> := ["patient", "doctor", "superadmin"]

  function RoleName(r: Role): (s: string)
    ensures s in RoleNames
  {
    match r
    case Patient => "patient"
    case Doctor => "doctor"
    case Superadmin => "superadmin"
  }

  /** The enum check on `role`. */
  function ParseRole(s: string): (r: Option<Role>)
    ensures r.Some? <==> s in RoleNames
    ensures r.Some? ==> RoleName(r.value) == s
  {
    if s == "patient" then Some(Patient)
    else if s == "doctor" then Some(Doctor)
    else if s == "superadmin" then Some(Superadmin)
    else None
  }

  /** `new User({ name, email, phone, password })` at time `now`, every other field at its default. */
  function NewUser(name: string, email: string, phone: string, password: string, now: int): (u: User)
    ensures u.role == Patient && !u.profileCreated && !u.isDeleted
    ensures u.otp.None? && u.displayId == "" && u.password == Plain(password) && u.createdAt == now
  {
    User(name, email, phone, Plain(password), Patient, "", false, None, "", false, now)
  }

  /** The required validator: the first required path holding nothing, if any. */
  function MissingRequired(u: User): (r: Option<string>)
    ensures r.None? <==> u.name != "" && u.email != "" && u.phone != "" && u.password != Plain("")
    ensures r.Some? ==> r.value in ["name", "email", "phone", "password"]
  {
    if u.name == "" then Some("name")
    else if u.email == "" then Some("email")
    else if u.phone == "" then Some("phone")
    else if u.password == Plain("") then Some("password")
    else None
  }

  /** What the pre-save hook leaves behind: a hashed password and, given a name, a display id. */
  predicate Saved(u: User) {
    u.password.Hashed? && (u.name != "" ==> u.displayId != "")
  }

  function Min(a: nat, b: nat): nat { if a < b then a else b }

  /** `name.slice(0, 3).toUpperCase()`. */
  function DisplayPrefix(name: string): string {
    ToUpper(name[..Min(3, |name|)])
  }

  /** `v.toString().padStart(3, '0')` for a value below 1000. */
  function ZeroPadded(v: nat): (s: string)
    requires v < 1000
    ensures |s| == 3 && AllDigits(s) && DecimalValue(s) == v
  {
    DecimalLength(v, 3);
    var s := PadStart(Decimal(v), 3, '0');
    assert s == s[..3 - |Decimal(v)|] + Decimal(v);
    LeadingZeros(s[..3 - |Decimal(v)|], Decimal(v));
    DecimalRoundTrip(v);
    s
  }

  /**
   * With an id: `parseInt(id.slice(-4), 16) % 1000`, zero-padded to three
   * digits. Without one: `Math.floor(100 + Math.random() * 900)`, where
   * `draw` stands for `Math.floor(Math.random() * 900)`.
   */
  function DisplaySuffix(id: Option<Id>, draw: nat): (s: string)
    requires draw < 900
    ensures |s| == 3 && AllDigits(s)
    ensures id.Some? ==> DecimalValue(s) == id.value % 65536 % 1000
    ensures id.None? ==> DecimalValue(s) == 100 + draw && 100 <= DecimalValue(s) <= 999
  {
    match id
    case Some(k) =>
      LastFourHexDigits(k);
      ZeroPadded(ParseHex(IdString(k)[20..]) % 1000)
    case None =>
      DecimalLength(100 + draw, 3);
      DecimalRoundTrip(100 + draw);
      Decimal(100 + draw)
  }

  function DisplayId(name: string, id: Option<Id>, draw: nat): string
    requires draw < 900
  {
    DisplayPrefix(name) + "-" + DisplaySuffix(id, draw)
  }

  /**
   * The pre-save hook. A display id is assigned only when there is none yet and
   * the record has a name; a password is hashed only when it was written since
   * the last save, that is, when it is still `Plain`.
   */
  function PreSave(u: User, id: Option<Id>, draw: nat): (v: User)
    requires draw < 900
    ensures Saved(v)
    ensures v.(displayId := u.displayId, password := u.password) == u
    ensures u.displayId != "" || u.name == "" ==> v.displayId == u.displayId
    ensures u.displayId == "" && u.name != "" ==> v.displayId == DisplayId(u.name, id, draw)
    ensures u.password.Hashed? ==> v.password == u.password
    ensures u.password.Plain? ==> v.password == Hashed(u.password.text)
  {
    var named := if u.displayId == "" && u.name != "" then u.(displayId := DisplayId(u.name, id, draw)) else u;
    if named.password.Plain? then named.(password := Hashed(named.password.text)) else named
  }

  /** Saving again changes nothing: the display id is never regenerated and a hash is never re-hashed. */
  lemma PreSaveIdempotent(u: User, id: Option<Id>, draw: nat, id': Option<Id>, draw': nat)
    requires draw < 900 && draw' < 900
    ensures PreSave(PreSave(u, id, draw), id', draw') == PreSave(u, id, draw)
  {
  }

  /** A record that has been through the hook is left as it is by the hook. */
  lemma PreSaveKeepsSaved(u: User, id: Option<Id>, draw: nat)
    requires draw < 900 && Saved(u)
    ensures PreSave(u, id, draw) == u
  {
  }

  /**
   * A freshly assigned display id is the upper-cased first three characters of the
   * name (fewer for a shorter name), a dash, and three decimal digits determined by
   * the id alone: the id's low sixteen bits, modulo 1000.
   */
  lemma DisplayIdShape(name: string, id: Id, draw: nat, draw': nat)
    requires draw < 900 && draw' < 900
    ensures var d := DisplayId(name, Some(id), draw);
      && |d| == Min(3, |name|) + 4
      && d[..Min(3, |name|)] == ToUpper(name[..Min(3, |name|)])
      && d[Min(3, |name|)] == '-'
      && AllDigits(d[Min(3, |name|) + 1..])
      && DecimalValue(d[Min(3, |name|) + 1..]) == id % 65536 % 1000
      && d == DisplayId(name, Some(id), draw')
  {
    var p := DisplayPrefix(name);
    var s := DisplaySuffix(Some(id), draw);
    assert DisplayId(name, Some(id), draw)[|p| + 1..] == s;
  }

  /**
   * The id enters the display id only through its low sixteen bits modulo 1000,
   * so two ids that agree there give the same display id for the same prefix.
   */
  lemma DisplayIdCollides(name: string, a: Id, b: Id)
    requires a % 65536 % 1000 == b % 65536 % 1000
    ensures DisplayId(name, Some(a), 0) == DisplayId(name, Some(b), 0)
  {
    LastFourHexDigits(a);
    LastFourHexDigits(b);
  }

  /** `user.comparePassword(entered)`. */
  predicate PasswordMatches(u: User, entered: string) {
    u.password == Hashed(entered)
  }
}
