/** The Report record (models/Report.js): status enum and default,
    required columns, free-text role and name captured at creation. */
module ReportModel {
  import opened Common

  datatype ReportStatus = Taslak | Gonderildi | Incelendi | Onaylandi | Reddedildi
  {
    function Code(): string
    {
      match this
      case Taslak => "taslak"
      case Gonderildi => "gönderildi"
      case Incelendi => "incelendi"
      case Onaylandi => "onaylandı"
      case Reddedildi => "reddedildi"
    }
  }

  const DEFAULT_REPORT_STATUS: ReportStatus := Taslak

  function ParseReportStatus(s: string): (r: Option<ReportStatus>)
    ensures r.Some? ==> r.value.Code() == s
    ensures forall st: ReportStatus :: st.Code() == s ==> r == Some(st)
  {
    if s == "taslak" then Some(Taslak)
    else if s == "gönderildi" then Some(Gonderildi)
    else if s == "incelendi" then Some(Incelendi)
    else if s == "onaylandı" then Some(Onaylandi)
    else if s == "reddedildi" then Some(Reddedildi)
    else None
  }

  /** A stored report: title, content and userId are NOT NULL; userRole and
      userFullName are free, nullable strings; reportDate defaults to now. */
  datatype Report = Report(
    id: int,
    title: string,
    content: string,
    userId: int,
    status: ReportStatus,
    reportDate: int,
    userRole: Option<string>,
    userFullName: Option<string>)

  /** Report.create: refused (None) without title or content; status starts
      at the default taslak. */
  function NewReport(id: int, userId: int, title: Option<string>, content: Option<string>,
                     userRole: string, userFullName: string, now: int): (r: Option<Report>)
    ensures r.Some? <==> title.Some? && content.Some?
    ensures r.Some? ==>
      && r.value.status == DEFAULT_REPORT_STATUS && r.value.id == id
      && r.value.userId == userId && r.value.reportDate == now
      && r.value.title == title.value && r.value.content == content.value
      && r.value.userRole == Some(userRole) && r.value.userFullName == Some(userFullName)
  {
    if title.None? || content.None? then None
    else Some(Report(id, title.value, content.value, userId, DEFAULT_REPORT_STATUS, now, Some(userRole), Some(userFullName)))
  }
}
