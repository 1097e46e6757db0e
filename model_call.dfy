/** The Call record (models/Call.js): the creator, six required text
    columns, priority and status enums with their defaults, a required
    integer duration and free notes. */
module CallModel {
  import opened Common

  datatype CallPriority = Yuksek | Normal | Dusuk
  {
    function Code(): string
    {
      match this
      case Yuksek => "Yüksek"
      case Normal => "Normal"
      case Dusuk => "Düşük"
    }
  }

  datatype CallStatus = Beklemede | Islemde | Tamamlandi
  {
    function Code(): string
    {
      match this
      case Beklemede => "Beklemede"
      case Islemde => "İşlemde"
      case Tamamlandi => "Tamamlandı"
    }
  }

  const DEFAULT_CALL_PRIORITY: CallPriority := Normal
  const DEFAULT_CALL_STATUS: CallStatus := Beklemede
  const DEFAULT_DURATION: int := 0

  function ParseCallPriority(s: string): (r: Option<CallPriority>)
    ensures r.Some? ==> r.value.Code() == s
    ensures forall p: CallPriority :: p.Code() == s ==> r == Some(p)
  {
    if s == "Yüksek" then Some(Yuksek)
    else if s == "Normal" then Some(Normal)
    else if s == "Düşük" then Some(Dusuk)
    else None
  }

  function ParseCallStatus(s: string): (r: Option<CallStatus>)
    ensures r.Some? ==> r.value.Code() == s
    ensures forall st: CallStatus :: st.Code() == s ==> r == Some(st)
  {
    if s == "Beklemede" then Some(Beklemede)
    else if s == "İşlemde" then Some(Islemde)
    else if s == "Tamamlandı" then Some(Tamamlandi)
    else None
  }

  /** A stored call. Every column but notes is NOT NULL; createdAt is the
      store's clock at insertion, which an update never writes. */
  datatype Call = Call(
    id: int,
    userId: int,
    userFullName: string,
    caller: string,
    company: string,
    branch: string,
    subject: string,
    description: string,
    priority: CallPriority,
    status: CallStatus,
    duration: int,
    notes: Option<string>,
    createdAt: int)

  /** Call columns as a request body carries them: absent text is None;
      userId and duration may arrive as numbers or strings. */
  datatype CallFields = CallFields(
    userId: JsValue,
    userFullName: Option<string>,
    caller: Option<string>,
    company: Option<string>,
    branch: Option<string>,
    subject: Option<string>,
    description: Option<string>,
    priority: Option<string>,
    status: Option<string>,
    duration: JsValue,
    notes: Option<string>)

  /** A NOT NULL integer column written from a body value: undefined keeps
      it; null, or a string the database cannot read as an integer, is
      refused (None). */
  function RequiredIntWrite(current: int, v: JsValue): (r: Option<int>)
    ensures r.None? <==> v == Null || ToInteger(v).Unconvertible?
    ensures r.Some? ==> r.value == (if v.Undefined? then current else ToInteger(v).n)
  {
    match ToInteger(v)
    case Unconvertible => None
    case NoValue => if v == Null then None else Some(current)
    case IntValue(n) => Some(n)
  }

  /** The free text columns of f written over the call's. */
  function WithText(call: Call, f: CallFields): (r: Call)
    ensures r.(userFullName := call.userFullName, caller := call.caller, company := call.company,
               branch := call.branch, subject := call.subject, description := call.description,
               notes := call.notes) == call
    ensures r.userFullName == (if f.userFullName.Some? then f.userFullName.value else call.userFullName)
    ensures r.caller == (if f.caller.Some? then f.caller.value else call.caller)
    ensures r.company == (if f.company.Some? then f.company.value else call.company)
    ensures r.branch == (if f.branch.Some? then f.branch.value else call.branch)
    ensures r.subject == (if f.subject.Some? then f.subject.value else call.subject)
    ensures r.description == (if f.description.Some? then f.description.value else call.description)
    ensures r.notes == (if f.notes.Some? then f.notes else call.notes)
  {
    call.(
      userFullName := if f.userFullName.Some? then f.userFullName.value else call.userFullName,
      caller := if f.caller.Some? then f.caller.value else call.caller,
      company := if f.company.Some? then f.company.value else call.company,
      branch := if f.branch.Some? then f.branch.value else call.branch,
      subject := if f.subject.Some? then f.subject.value else call.subject,
      description := if f.description.Some? then f.description.value else call.description,
      notes := if f.notes.Some? then f.notes else call.notes)
  }

  /** call.update(f): every present field replaces its column; refused
      (None) when userId or duration is null or not an integer, or the
      priority or status is outside its enum. */
  function ApplyCallFields(call: Call, f: CallFields): (r: Option<Call>)
    ensures r.Some? <==>
      && RequiredIntWrite(call.userId, f.userId).Some?
      && RequiredIntWrite(call.duration, f.duration).Some?
      && (f.priority.Some? ==> ParseCallPriority(f.priority.value).Some?)
      && (f.status.Some? ==> ParseCallStatus(f.status.value).Some?)
    ensures r.Some? ==>
      && r.value.id == call.id && r.value.createdAt == call.createdAt
      && r.value.userId == RequiredIntWrite(call.userId, f.userId).value
      && r.value.duration == RequiredIntWrite(call.duration, f.duration).value
      && r.value.priority == (if f.priority.Some? then ParseCallPriority(f.priority.value).value else call.priority)
      && r.value.status == (if f.status.Some? then ParseCallStatus(f.status.value).value else call.status)
      && r.value.(userId := call.userId, duration := call.duration, priority := call.priority,
                  status := call.status) == WithText(call, f)
  {
    var userId := RequiredIntWrite(call.userId, f.userId);
    var duration := RequiredIntWrite(call.duration, f.duration);
    var priority := if f.priority.Some? then ParseCallPriority(f.priority.value) else Some(call.priority);
    var status := if f.status.Some? then ParseCallStatus(f.status.value) else Some(call.status);
    if userId.None? || duration.None? || priority.None? || status.None? then None
    else Some(WithText(call, f).(
      userId := userId.value,
      priority := priority.value,
      status := status.value,
      duration := duration.value))
  }

  /** Applying the same fields to the row they produced changes nothing. */
  lemma {:induction false} ApplyCallFieldsTwice(call: Call, f: CallFields)
    requires ApplyCallFields(call, f).Some?
    ensures ApplyCallFields(ApplyCallFields(call, f).value, f) == ApplyCallFields(call, f)
  {
    var once := ApplyCallFields(call, f).value;
    var again := ApplyCallFields(once, f);
    assert again.Some?;
    assert again.value == once;
  }
}
