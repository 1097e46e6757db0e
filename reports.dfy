/** The report routes (routes/reports.js): the role hierarchy and the
    role-filtered listing, report creation and update by the owner, and the
    delete and status-change authorisation. */
module Reports {
  import opened Common
  import opened UserModel
  import opened ReportModel
  import opened Db
  import Text
  import Listing

  const ADMIN_KEY: string := "ADMIN"
  const PM_KEY: string := "PROJE_YONETICISI"
  const TL_KEY: string := "TAKIM_LIDERI"
  const EL_KEY: string := "EKIP_LIDERI"
  const LEAF_KEYS: seq<string> := ["YAZILIM", "SATIS", "MUSTERI_DESTEK", "KULLANICI"]

  /** roleHierarchy: each role to the roles below it. Every role of the
      chain lists the next role and everything that one lists; the four
      leaf roles list nothing. */
  function RoleHierarchy(): (h: map<string, seq<string>>)
    ensures h.Keys == {ADMIN_KEY, PM_KEY, TL_KEY, EL_KEY} + set k | k in LEAF_KEYS
    ensures h[ADMIN_KEY] == [PM_KEY] + h[PM_KEY]
    ensures h[PM_KEY] == [TL_KEY] + h[TL_KEY]
    ensures h[TL_KEY] == [EL_KEY] + h[EL_KEY]
    ensures h[EL_KEY] == LEAF_KEYS
    ensures forall k :: k in LEAF_KEYS ==> h[k] == []
  {
    map[
      ADMIN_KEY := [PM_KEY, TL_KEY, EL_KEY] + LEAF_KEYS,
      PM_KEY := [TL_KEY, EL_KEY] + LEAF_KEYS,
      TL_KEY := [EL_KEY] + LEAF_KEYS,
      EL_KEY := LEAF_KEYS,
      "YAZILIM" := [], "SATIS" := [], "MUSTERI_DESTEK" := [], "KULLANICI" := []]
  }

  /** The hierarchy is strict: no role lists itself, and a listed role is a
      key that lists fewer roles, so no role lists a role above it. */
  lemma HierarchyStrict()
    ensures forall k :: k in RoleHierarchy() ==> k !in RoleHierarchy()[k]
    ensures forall k, j :: k in RoleHierarchy() && j in RoleHierarchy()[k] ==>
      j in RoleHierarchy() && |RoleHierarchy()[j]| < |RoleHierarchy()[k]|
  {
  }

  /** Listing over the hierarchy is transitive: whoever a listed role
      lists is listed too. */
  lemma HierarchyTransitive(a: string, b: string, c: string)
    requires a in RoleHierarchy() && b in RoleHierarchy()[a] && c in RoleHierarchy()[b]
    ensures c in RoleHierarchy()[a]
  {
    var h := RoleHierarchy();
    if a == ADMIN_KEY {
      assert h[a] == [PM_KEY, TL_KEY, EL_KEY] + LEAF_KEYS;
    } else if a == PM_KEY {
      assert b in [TL_KEY, EL_KEY] + LEAF_KEYS;
    } else if a == TL_KEY {
      assert b in [EL_KEY] + LEAF_KEYS;
    }
  }

  /** The keys of the hierarchy are already upper case: normalising one
      gives it back. */
  lemma HierarchyKeysAreUpper(k: string)
    requires k in RoleHierarchy()
    ensures Text.ToUpper(k) == k
  {
    KeysAreCapitals(k);
    Text.CapitalsAreUpper(k);
  }

  /** Every key of the hierarchy is spelt with capitals and '_' only. */
  lemma KeysAreCapitals(k: string)
    requires k in RoleHierarchy()
    ensures forall i :: 0 <= i < |k| ==> 'A' <= k[i] <= 'Z' || k[i] == '_'
  {
    var keys := if k in LEAF_KEYS then LEAF_KEYS else [ADMIN_KEY, PM_KEY, TL_KEY, EL_KEY];
    assert k in keys;
    CapitalsIn(k, keys);
  }

  lemma CapitalsIn(k: string, keys: seq<string>)
    requires k in keys
    requires keys == LEAF_KEYS || keys == [ADMIN_KEY, PM_KEY, TL_KEY, EL_KEY]
    ensures forall i :: 0 <= i < |k| ==> 'A' <= k[i] <= 'Z' || k[i] == '_'
  {
  }

  /** A string that upper-cases, at some position, to a character other than
      a capital or '_' never upper-cases to a key. */
  lemma NoKeyThrough(code: string, i: int)
    requires 0 <= i < |code|
    requires forall j :: 0 <= j < |code| ==> code[j] != '\U{00DF}' && code[j] != '\U{0149}'
    requires var u := Text.UpperOf(code[i])[0]; !('A' <= u <= 'Z' || u == '_')
    ensures Text.ToUpper(code) !in RoleHierarchy()
  {
    Text.ToUpperPointwise(code);
    var n := Text.ToUpper(code);
    assert n[i] == Text.UpperOf(code[i])[0];
    if n in RoleHierarchy() {
      KeysAreCapitals(n);
    }
  }

  /** Upper-cased, a stored role is a key of the hierarchy only for Admin and
      for the two leaf roles whose only non-ASCII letter is the dotless ı
      (upper-cased to I); only Admin becomes ADMIN. Every other role differs
      from the keys of its length in one position: a space where the key
      has '_', or the Ş of Satış. */
  lemma NormalizedStoredRole(role: Role)
    ensures Text.ToUpper(role.Code()) in RoleHierarchy() <==> role in {Admin, Yazilim, Kullanici}
    ensures Text.ToUpper(role.Code()) == ADMIN_KEY <==> role == Admin
  {
    match role
    case Admin => UpperAdmin(role);
    case Yazilim => UpperYazilim(role);
    case Kullanici => UpperKullanici(role);
    case ProjeYoneticisi => UpperProjeYoneticisi(role);
    case TakimLideri => UpperTakimLideri(role);
    case EkipLideri => UpperEkipLideri(role);
    case Satis => UpperSatis(role);
    case MusteriDestek => UpperMusteriDestek(role);
  }

  // One lemma per stored role: what it upper-cases to, or the position
  // where it misses the key of its length.

  lemma UpperAdmin(role: Role)
    requires role == Admin
    ensures Text.ToUpper(role.Code()) == ADMIN_KEY
  {
    Text.ToUpperIs(role.Code(), ADMIN_KEY);
  }

  lemma UpperYazilim(role: Role)
    requires role == Yazilim
    ensures Text.ToUpper(role.Code()) == "YAZILIM"
  {
    Text.ToUpperIs(role.Code(), "YAZILIM");
  }

  lemma UpperKullanici(role: Role)
    requires role == Kullanici
    ensures Text.ToUpper(role.Code()) == "KULLANICI"
  {
    Text.ToUpperIs(role.Code(), "KULLANICI");
  }

  lemma UpperProjeYoneticisi(role: Role)
    requires role == ProjeYoneticisi
    ensures Text.ToUpper(role.Code()) !in RoleHierarchy()
  {
    var code := role.Code();
    assert code[5] == ' ';
    NoKeyThrough(code, 5);
  }

  lemma UpperTakimLideri(role: Role)
    requires role == TakimLideri
    ensures Text.ToUpper(role.Code()) !in RoleHierarchy()
  {
    var code := role.Code();
    assert code[5] == ' ';
    NoKeyThrough(code, 5);
  }

  lemma UpperEkipLideri(role: Role)
    requires role == EkipLideri
    ensures Text.ToUpper(role.Code()) !in RoleHierarchy()
  {
    var code := role.Code();
    assert code[4] == ' ';
    NoKeyThrough(code, 4);
  }

  lemma UpperSatis(role: Role)
    requires role == Satis
    ensures Text.ToUpper(role.Code()) !in RoleHierarchy()
  {
    var code := role.Code();
    assert code[4] == 'ş';
    NoKeyThrough(code, 4);
  }

  lemma UpperMusteriDestek(role: Role)
    requires role == MusteriDestek
    ensures Text.ToUpper(role.Code()) !in RoleHierarchy()
  {
    var code := role.Code();
    assert code[7] == ' ';
    NoKeyThrough(code, 7);
  }

  /** The roles a requester of a normalised role may see: the role itself
      and, when it is a key, every role it lists. */
  function ViewableRoles(normalized: string): (vs: seq<string>)
    ensures normalized in vs
    ensures forall v :: v in vs <==> v == normalized || (normalized in RoleHierarchy() && v in RoleHierarchy()[normalized])
  {
    if normalized in RoleHierarchy() then [normalized] + RoleHierarchy()[normalized] else [normalized]
  }

  /** Whether a report passes the listing's filter for a normalised role. */
  predicate Visible(report: Report, normalized: string)
  {
    normalized == ADMIN_KEY || (report.userRole.Some? && report.userRole.value in ViewableRoles(normalized))
  }

  /** GET /reports: 400 without userId or userRole; otherwise each report
      the role may see exactly once, latest reportDate first. The role is
      normalised by getNormalizedRole, `role.toUpperCase()`. */
  function ListReports(reports: map<int, Report>, nextReportId: int, userId: Option<string>, userRole: Option<string>)
    : (r: Result<seq<Report>>)
    requires forall k :: k in reports ==> 0 <= k < nextReportId && reports[k].id == k
    ensures r.Err? <==> !Truthy(userId) || !Truthy(userRole)
    ensures r.Err? ==> r.error == MissingUserInfo
    ensures r.Ok? ==> Listing.SortedDesc(r.value, (x: Report) => x.reportDate)
    ensures r.Ok? ==> forall x :: x in r.value <==> x in reports.Values && Visible(x, Text.ToUpper(userRole.value))
    ensures r.Ok? ==> forall x :: multiset(r.value)[x] ==
                        if x.id in reports && reports[x.id] == x && Visible(x, Text.ToUpper(userRole.value)) then 1 else 0
  {
    if !Truthy(userId) || !Truthy(userRole) then Err(MissingUserInfo)
    else
      var n := Text.ToUpper(userRole.value);
      var r := Listing.Query(reports, nextReportId, (x: Report) => Visible(x, n), (x: Report) => x.reportDate);
      assert forall x :: multiset(r)[x] == if x.id in reports && reports[x.id] == x && Visible(x, n) then 1 else 0 by {
        forall x ensures multiset(r)[x] == if x.id in reports && reports[x.id] == x && Visible(x, n) then 1 else 0 {
          Listing.KeyCountOfKeyedRow(reports, nextReportId, (x: Report) => x.id, x);
        }
      }
      Ok(r)
  }

  /** An Admin sees every report. */
  lemma AdminSeesEverything(reports: map<int, Report>, nextReportId: int, userId: string, x: Report)
    requires forall k :: k in reports ==> 0 <= k < nextReportId && reports[k].id == k
    requires userId != "" && x in reports.Values
    ensures var r := ListReports(reports, nextReportId, Some(userId), Some(Admin.Code()));
      r.Ok? && x in r.value
  {
    NormalizedStoredRole(Admin);
  }

  /** A requester sees a report of a role iff it is their own role or one
      the hierarchy lists under it. */
  lemma VisibleRoles(report: Report, normalized: string)
    requires normalized != ADMIN_KEY && report.userRole.Some?
    ensures Visible(report, normalized) <==>
      report.userRole.value == normalized
      || (normalized in RoleHierarchy() && report.userRole.value in RoleHierarchy()[normalized])
  {
  }

  /** statusMap lookup with the raw status as fallback. */
  function StatusLabel(status: string): (r: string)
    ensures ParseReportStatus(status).None? ==> r == status
    ensures ParseReportStatus(status).Some? ==>
      && |r| == |status| && r[1..] == status[1..] && r[0] != status[0]
      && ParseReportStatus(r).None?
  {
    if status == "taslak" then "Taslak"
    else if status == "gönderildi" then "Gönderildi"
    else if status == "incelendi" then "İncelendi"
    else if status == "onaylandı" then "Onaylandı"
    else if status == "reddedildi" then "Reddedildi"
    else status
  }

  /** The body of POST /reports. */
  datatype NewReportBody = NewReportBody(userId: JsValue, title: Option<string>, content: Option<string>)

  /** POST /reports: the author must exist; the report records the author's
      stored role and full name and starts as taslak. */
  function CreateReportSpec(id: int, users: map<int, User>, body: NewReportBody, now: int): (r: Result<Report>)
    ensures FindByPk(users, body.userId).Failed? ==> r == Err(Crashed)
    ensures FindByPk(users, body.userId).Missing? ==> r == Err(NotFound(UserRow, None))
    ensures FindByPk(users, body.userId).Found? ==>
      var user := FindByPk(users, body.userId).row;
      && (r.Ok? <==> body.title.Some? && body.content.Some?)
      && (r.Err? ==> r.error == Rejected)
      && (r.Ok? ==>
            && r.value.id == id && r.value.userId == ToInteger(body.userId).n
            && r.value.title == body.title.value && r.value.content == body.content.value
            && r.value.status == Taslak && r.value.reportDate == now
            && r.value.userRole == Some(user.rol.Code()) && r.value.userFullName == Some(FullName(user)))
  {
    match FindByPk(users, body.userId)
    case Failed => Err(Crashed)
    case Missing => Err(NotFound(UserRow, None))
    case Found(user) =>
      match NewReport(id, ToInteger(body.userId).n, body.title, body.content, user.rol.Code(), FullName(user), now)
      case None => Err(Rejected)
      case Some(report) => Ok(report)
  }

  /** The body of PUT /reports/:id; every present column is written. */
  datatype ReportBody = ReportBody(
    title: Option<string>,
    content: Option<string>,
    status: Option<string>,
    userId: JsValue,
    userRole: Option<string>,
    userFullName: Option<string>,
    reportDate: Option<int>)

  /** report.update(body): present fields replace their columns, the
      reportDate the listing orders by included; refused
      (None) when the status is outside its enum or userId is null or not
      an integer. */
  function ApplyReportBody(report: Report, body: ReportBody): (r: Option<Report>)
    ensures r.Some? <==>
      && (body.status.Some? ==> ParseReportStatus(body.status.value).Some?)
      && body.userId != Null && !ToInteger(body.userId).Unconvertible?
    ensures r.Some? ==>
      && r.value.id == report.id
      && r.value.reportDate == (if body.reportDate.Some? then body.reportDate.value else report.reportDate)
      && r.value.title == (if body.title.Some? then body.title.value else report.title)
      && r.value.content == (if body.content.Some? then body.content.value else report.content)
      && r.value.status == (if body.status.Some? then ParseReportStatus(body.status.value).value else report.status)
      && r.value.userId == (if body.userId.Undefined? then report.userId else ToInteger(body.userId).n)
      && r.value.userRole == (if body.userRole.Some? then body.userRole else report.userRole)
      && r.value.userFullName == (if body.userFullName.Some? then body.userFullName else report.userFullName)
  {
    var status := if body.status.Some? then ParseReportStatus(body.status.value) else Some(report.status);
    var owner := ToInteger(body.userId);
    if status.None? || body.userId == Null || owner.Unconvertible? then None
    else Some(report.(
      title := if body.title.Some? then body.title.value else report.title,
      content := if body.content.Some? then body.content.value else report.content,
      status := status.value,
      userId := if owner.IntValue? then owner.n else report.userId,
      userRole := if body.userRole.Some? then body.userRole else report.userRole,
      userFullName := if body.userFullName.Some? then body.userFullName else report.userFullName,
      reportDate := if body.reportDate.Some? then body.reportDate.value else report.reportDate))
  }

  /** PUT /reports/:id: only the owner, `parseInt(body.userId)`, may update;
      the whole body is then applied. The ownership check means an update
      can never hand the report to another user. */
  function UpdateReportSpec(report: Report, body: ReportBody): (r: Result<Report>)
    ensures r == Err(Forbidden) <==> ParseInt(body.userId) != Some(report.userId)
    ensures ParseInt(body.userId) == Some(report.userId) ==>
      && (r.Ok? <==> ApplyReportBody(report, body).Some?)
      && (r.Ok? ==> r.value == ApplyReportBody(report, body).value)
      && (r.Err? ==> r.error == Rejected)
    ensures r.Ok? ==> r.value.id == report.id && r.value.userId == report.userId
  {
    if ParseInt(body.userId) != Some(report.userId) then Err(Forbidden)
    else match ApplyReportBody(report, body)
      case None => Err(Rejected)
      case Some(next) => Ok(next)
  }

  /** The outcome of an authorisation check: pass, refuse, or a TypeError
      from reading a property of a missing user. */
  datatype Gate = Allow | Deny | Crash

  /** The DELETE check as written: the owner passes; anyone else must have
      a `rol` other than the string 'ADMIN' to be refused, which every
      stored role has; a requester that does not exist throws. So only the
      owner can delete. */
  function DeleteGateAsWritten(report: Report, requesterId: JsValue, requester: Lookup<User>): (g: Gate)
    requires !requester.Failed?
    ensures g == Allow <==> ParseInt(requesterId) == Some(report.userId)
    ensures g == Crash <==> ParseInt(requesterId) != Some(report.userId) && requester.Missing?
  {
    if ParseInt(requesterId) == Some(report.userId) then Allow
    else if requester.Missing? then Crash
    else if requester.row.rol.Code() != ADMIN_KEY then Deny
    else Allow
  }

  /** The DELETE check as evidently intended: the owner or an Admin passes. */
  function DeleteGate(report: Report, requesterId: JsValue, requester: Lookup<User>): (g: Gate)
    requires !requester.Failed?
    ensures g == Allow <==>
      ParseInt(requesterId) == Some(report.userId) || (requester.Found? && requester.row.rol == Admin)
    ensures g == Crash <==> ParseInt(requesterId) != Some(report.userId) && requester.Missing?
  {
    if ParseInt(requesterId) == Some(report.userId) then Allow
    else if requester.Missing? then Crash
    else if requester.row.rol != Admin then Deny
    else Allow
  }

  /** DELETE /reports/:id?userId=…: the requester is looked up first (a key
      the database cannot read throws), then the gate decides. */
  function DeleteReportSpec(report: Report, users: map<int, User>, requesterId: JsValue): (r: Result<()>)
    ensures FindByPk(users, requesterId).Failed? ==> r == Err(Crashed)
    ensures !FindByPk(users, requesterId).Failed? ==>
      match DeleteGate(report, requesterId, FindByPk(users, requesterId))
      case Allow => r == Ok(())
      case Deny => r == Err(Forbidden)
      case Crash => r == Err(Crashed)
  {
    var requester := FindByPk(users, requesterId);
    if requester.Failed? then Err(Crashed)
    else match DeleteGate(report, requesterId, requester)
      case Allow => Ok(())
      case Deny => Err(Forbidden)
      case Crash => Err(Crashed)
  }

  /** Admin may always delete; the owner may delete their own report. */
  lemma DeleteAllowedForAdminAndOwner(report: Report, users: map<int, User>, u: User)
    requires u.id in users && users[u.id] == u
    requires u.rol == Admin || u.id == report.userId
    ensures DeleteReportSpec(report, users, Num(u.id)) == Ok(())
  {
    assert ToInteger(Num(u.id)) == IntValue(u.id);
  }

  /** The hierarchy key a stored role evidently names: its value with the
      Turkish letters transliterated, spaces as underscores, upper-cased. */
  function RoleKey(role: Role): (k: string)
    ensures k in RoleHierarchy()
    ensures k == ADMIN_KEY <==> role == Admin
  {
    match role
    case Admin => ADMIN_KEY
    case ProjeYoneticisi => PM_KEY
    case TakimLideri => TL_KEY
    case EkipLideri => EL_KEY
    case Yazilim => "YAZILIM"
    case Satis => "SATIS"
    case MusteriDestek => "MUSTERI_DESTEK"
    case Kullanici => "KULLANICI"
  }

  /** A role's depth in the hierarchy: Admin 0, then the chain, the leaves last. */
  function Rank(role: Role): nat
  {
    match role
    case Admin => 0
    case ProjeYoneticisi => 1
    case TakimLideri => 2
    case EkipLideri => 3
    case _ => 4
  }

  /** The hierarchy, read through RoleKey, orders the roles by depth. */
  lemma HierarchyIsRankOrder(a: Role, b: Role)
    ensures RoleKey(b) in RoleHierarchy()[RoleKey(a)] <==> Rank(a) < Rank(b)
  {
    var h := RoleHierarchy();
    match a
    case Admin => assert h[ADMIN_KEY] == [PM_KEY, TL_KEY, EL_KEY] + LEAF_KEYS;
    case ProjeYoneticisi => assert h[PM_KEY] == [TL_KEY, EL_KEY] + LEAF_KEYS;
    case TakimLideri => assert h[TL_KEY] == [EL_KEY] + LEAF_KEYS;
    case EkipLideri =>
    case _ =>
  }

  /** No stored role, spelt as the enum stores it, is 'ADMIN' or a key of
      the hierarchy. */
  lemma StoredRoleIsNoKey(role: Role)
    ensures role.Code() != ADMIN_KEY && role.Code() !in RoleHierarchy()
  {
    var c := role.Code();
    match role
    case Admin => assert c[1] == 'd';
    case ProjeYoneticisi => assert c[1] == 'r';
    case TakimLideri => assert c[1] == 'a';
    case EkipLideri => assert c[1] == 'k';
    case Yazilim => assert c[1] == 'a';
    case Satis => assert c[1] == 'a';
    case MusteriDestek => assert c[1] == 'ü';
    case Kullanici => assert c[1] == 'u';
  }

  /** The status-change check as written, on the requester's and the
      owner's `rol` as stored: only 'ADMIN' or a key of the hierarchy can
      pass, and an owner row that is missing throws. */
  function StatusGateAsWritten(requesterRol: string, ownerRol: Option<string>): (g: Gate)
    ensures g == Allow ==> requesterRol == ADMIN_KEY || requesterRol in RoleHierarchy()
    ensures g == Crash <==> requesterRol != ADMIN_KEY && requesterRol in RoleHierarchy() && ownerRol.None?
  {
    if requesterRol == ADMIN_KEY then Allow
    else if requesterRol in RoleHierarchy() then
      if ownerRol.None? then Crash
      else if ownerRol.value in RoleHierarchy()[requesterRol] then Allow else Deny
    else Deny
  }

  /** Since no stored role is spelt 'ADMIN' or as a key, the check as written
      refuses every requester, Admin included. */
  lemma StatusGateAsWrittenRefusesAll(requester: User, owner: Option<User>)
    ensures StatusGateAsWritten(requester.rol.Code(), if owner.Some? then Some(owner.value.rol.Code()) else None) == Deny
  {
    StoredRoleIsNoKey(requester.rol);
  }

  /** The status-change check as evidently intended, through RoleKey: an
      Admin, or a requester strictly above the report owner. A missing owner
      row still throws for a non-Admin requester. */
  function StatusGate(requester: User, owner: Option<User>): (g: Gate)
    ensures g == Allow <==> requester.rol == Admin || (owner.Some? && Rank(requester.rol) < Rank(owner.value.rol))
    ensures g == Crash <==> requester.rol != Admin && owner.None?
  {
    var key := RoleKey(requester.rol);
    if key == ADMIN_KEY then Allow
    else if key in RoleHierarchy() then
      if owner.None? then Crash
      else
        HierarchyIsRankOrder(requester.rol, owner.value.rol);
        if RoleKey(owner.value.rol) in RoleHierarchy()[key] then Allow else Deny
    else Deny
  }

  /** The report owner's row, `User.findByPk(report.userId)`. */
  function OwnerOf(report: Report, users: map<int, User>): (o: Option<User>)
    ensures o.Some? <==> report.userId in users
    ensures o.Some? ==> o.value == users[report.userId]
  {
    if report.userId in users then Some(users[report.userId]) else None
  }

  /** PATCH /reports/:id/status: the requester must exist and pass the
      gate; any status of the enum is then accepted, whatever the current
      one, and nothing but the status changes. */
  function StatusChangeSpec(report: Report, users: map<int, User>, userId: JsValue, newStatus: Option<string>)
    : (r: Result<Report>)
    ensures FindByPk(users, userId).Failed? ==> r == Err(Crashed)
    ensures FindByPk(users, userId).Missing? ==> r == Err(NotFound(UserRow, None))
    ensures FindByPk(users, userId).Found? ==>
      var g := StatusGate(FindByPk(users, userId).row, OwnerOf(report, users));
      && (g == Deny ==> r == Err(Forbidden))
      && (g == Crash ==> r == Err(Crashed))
      && (g == Allow ==>
            && (newStatus.None? ==> r == Ok(report))
            && (newStatus.Some? && ParseReportStatus(newStatus.value).None? ==> r == Err(Rejected))
            && (newStatus.Some? && ParseReportStatus(newStatus.value).Some? ==>
                  r == Ok(report.(status := ParseReportStatus(newStatus.value).value))))
    ensures r.Ok? ==> r.value == report.(status := r.value.status)
    ensures r.Ok? && newStatus.Some? ==> r.value.status.Code() == newStatus.value
  {
    match FindByPk(users, userId)
    case Failed => Err(Crashed)
    case Missing => Err(NotFound(UserRow, None))
    case Found(requester) =>
      match StatusGate(requester, OwnerOf(report, users))
      case Crash => Err(Crashed)
      case Deny => Err(Forbidden)
      case Allow =>
        if newStatus.None? then Ok(report)
        else match ParseReportStatus(newStatus.value)
          case None => Err(Rejected)
          case Some(st) => Ok(report.(status := st))
  }

  /** There is no transition table: an Admin can set any status from any. */
  lemma AdminSetsAnyStatus(report: Report, users: map<int, User>, admin: User, st: ReportStatus)
    requires admin.id in users && users[admin.id] == admin && admin.rol == Admin
    ensures StatusChangeSpec(report, users, Num(admin.id), Some(st.Code())) == Ok(report.(status := st))
  {
    assert ToInteger(Num(admin.id)) == IntValue(admin.id);
  }

  /** A requester ranked above the report's owner sets any status, as an
      Admin does: a Proje Yöneticisi over a Yazılım author, say. */
  lemma SuperiorSetsAnyStatus(report: Report, users: map<int, User>, boss: User, st: ReportStatus)
    requires boss.id in users && users[boss.id] == boss
    requires report.userId in users && Rank(boss.rol) < Rank(users[report.userId].rol)
    ensures StatusChangeSpec(report, users, Num(boss.id), Some(st.Code())) == Ok(report.(status := st))
  {
    assert ToInteger(Num(boss.id)) == IntValue(boss.id);
    assert StatusGate(boss, OwnerOf(report, users)) == Allow;
  }

  /** Nobody but an Admin changes the status of their own report: a leaf
      role's author never can. */
  lemma OwnerCannotChangeOwnStatus(report: Report, users: map<int, User>, u: User, newStatus: Option<string>)
    requires u.id in users && users[u.id] == u && u.id == report.userId && u.rol != Admin
    ensures StatusChangeSpec(report, users, Num(u.id), newStatus) == Err(Forbidden)
  {
    assert ToInteger(Num(u.id)) == IntValue(u.id);
    assert OwnerOf(report, users) == Some(u);
  }

  /** POST /reports. */
  method CreateReport(db: Store, body: NewReportBody, now: int) returns (res: Result<Report>)
    requires db.Valid()
    modifies db
    ensures db.Valid()
    ensures
      var c := CreateReportSpec(old(db.nextReportId), old(db.users), body, now);
      && res == c
      && db.Snapshot() == (if c.Ok? then old(db.Snapshot()).(
                             reports := old(db.reports)[old(db.nextReportId) := c.value],
                             nextReportId := old(db.nextReportId) + 1)
                           else old(db.Snapshot()))
  {
    res := CreateReportSpec(db.nextReportId, db.users, body, now);
    if res.Ok? {
      db.reports := db.reports[db.nextReportId := res.value];
      db.nextReportId := db.nextReportId + 1;
    }
  }

  /** Writes a stored report back under its id. */
  method WriteReport(db: Store, report: Report)
    requires db.Valid() && report.id in db.reports
    modifies db
    ensures db.Valid()
    ensures db.Snapshot() == old(db.Snapshot()).(reports := old(db.reports)[report.id := report])
  {
    db.reports := db.reports[report.id := report];
  }

  /** PUT /reports/:id. */
  method UpdateReport(db: Store, id: string, body: ReportBody) returns (res: Result<Report>)
    requires db.Valid()
    modifies db
    ensures db.Valid()
    ensures FindByPk(old(db.reports), Str(id)).Failed? ==> res == Err(Crashed) && db.Snapshot() == old(db.Snapshot())
    ensures FindByPk(old(db.reports), Str(id)).Missing? ==>
      res == Err(NotFound(ReportRow, None)) && db.Snapshot() == old(db.Snapshot())
    ensures FindByPk(old(db.reports), Str(id)).Found? ==>
      var report := FindByPk(old(db.reports), Str(id)).row;
      var u := UpdateReportSpec(report, body);
      && res == u
      && db.Snapshot() == old(db.Snapshot()).(
           reports := if u.Ok? then old(db.reports)[report.id := u.value] else old(db.reports))
  {
    var found := FindByPk(db.reports, Str(id));
    if found.Failed? {
      return Err(Crashed);
    }
    if found.Missing? {
      return Err(NotFound(ReportRow, None));
    }
    res := UpdateReportSpec(found.row, body);
    if res.Ok? {
      WriteReport(db, res.value);
    }
  }

  /** DELETE /reports/:id, with the evidently intended Admin override. */
  method DeleteReport(db: Store, id: string, requesterId: JsValue) returns (res: Result<()>)
    requires db.Valid()
    modifies db
    ensures db.Valid()
    ensures FindByPk(old(db.reports), Str(id)).Failed? ==> res == Err(Crashed) && db.Snapshot() == old(db.Snapshot())
    ensures FindByPk(old(db.reports), Str(id)).Missing? ==>
      res == Err(NotFound(ReportRow, None)) && db.Snapshot() == old(db.Snapshot())
    ensures FindByPk(old(db.reports), Str(id)).Found? ==>
      var report := FindByPk(old(db.reports), Str(id)).row;
      var d := DeleteReportSpec(report, old(db.users), requesterId);
      && res == d
      && db.Snapshot() == old(db.Snapshot()).(
           reports := if d.Ok? then old(db.reports) - {report.id} else old(db.reports))
  {
    var found := FindByPk(db.reports, Str(id));
    if found.Failed? {
      return Err(Crashed);
    }
    if found.Missing? {
      return Err(NotFound(ReportRow, None));
    }
    res := DeleteReportSpec(found.row, db.users, requesterId);
    if res.Ok? {
      db.reports := db.reports - {found.row.id};
    }
  }

  /** PATCH /reports/:id/status, with the evidently intended role check. */
  method ChangeReportStatus(db: Store, id: string, userId: JsValue, newStatus: Option<string>) returns (res: Result<Report>)
    requires db.Valid()
    modifies db
    ensures db.Valid()
    ensures FindByPk(old(db.reports), Str(id)).Failed? ==> res == Err(Crashed) && db.Snapshot() == old(db.Snapshot())
    ensures FindByPk(old(db.reports), Str(id)).Missing? ==>
      res == Err(NotFound(ReportRow, None)) && db.Snapshot() == old(db.Snapshot())
    ensures FindByPk(old(db.reports), Str(id)).Found? ==>
      var report := FindByPk(old(db.reports), Str(id)).row;
      var c := StatusChangeSpec(report, old(db.users), userId, newStatus);
      && res == c
      && db.Snapshot() == old(db.Snapshot()).(
           reports := if c.Ok? then old(db.reports)[report.id := c.value] else old(db.reports))
  {
    var found := FindByPk(db.reports, Str(id));
    if found.Failed? {
      return Err(Crashed);
    }
    if found.Missing? {
      return Err(NotFound(ReportRow, None));
    }
    res := StatusChangeSpec(found.row, db.users, userId, newStatus);
    if res.Ok? {
      WriteReport(db, res.value);
    }
  }
}
