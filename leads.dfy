/**
 * `GET` and `POST /api/leads` (src/app/api/leads/route.ts): website leads are logged as
 * fixed 14-column evidence rows in the `Leads` tab, with a fallback tab when that append fails.
 */
module Leads {
  import opened Http
  import opened Sheet

  /**
   * Browser signals sent with a lead. Each optional field is `None` when the JSON value is
   * absent or falsy, and otherwise holds the text a template literal prints for it.
   */
  datatype Fingerprint = Fingerprint(
    screen: Option<string>,
    devicePixelRatio: Option<string>,
    hardwareConcurrency: Option<string>,
    deviceMemory: Option<string>,
    platform: Option<string>,
    userAgent: Option<string>,
    webdriver: bool)

  datatype Behavior = Behavior(pasteDetected: bool, typingFormatted: Option<string>)

  datatype LeadPayload = LeadPayload(
    leadType: Option<string>,   // `type`, `None` only when the field is absent
    name: Option<string>,
    email: Option<string>,
    message: Option<string>,
    ip: Option<string>,
    fingerprint: Fingerprint,
    behavior: Behavior,
    metaJson: string)           // `JSON.stringify(meta)`

  /** `type = "CONTACT"`: the default applies to an absent field only. */
  function LeadType(p: LeadPayload): string {
    match p.leadType
    case Some(t) => t
    case None => "CONTACT"
  }

  /** The three-level risk rule: a webdriver is a bot, a paste is suspicious, else low. */
  function Risk(webdriver: bool, pasteDetected: bool): (r: string)
    ensures r == "HIGH (BOT)" <==> webdriver
    ensures r == "MEDIUM" <==> !webdriver && pasteDetected
    ensures r == "LOW" <==> !webdriver && !pasteDetected
  {
    if webdriver then "HIGH (BOT)" else if pasteDetected then "MEDIUM" else "LOW"
  }

  function Signature(fp: Fingerprint): string {
    "Res:" + Or(fp.screen, "N/A") + " | Px:" + Or(fp.devicePixelRatio, "N/A")
      + " | Cores:" + Or(fp.hardwareConcurrency, "N/A") + " | RAM:" + Or(fp.deviceMemory, "N/A") + "GB"
  }

  /** The evidence row appended for a lead received at `timestamp`. */
  function EvidenceRow(p: LeadPayload, timestamp: string): (row: Row)
    ensures |row| == 14
    ensures row[0] == timestamp && row[1] == LeadType(p)
    ensures row[2] == Or(p.name, "N/A") && row[3] == Or(p.email, "N/A") && row[4] == Or(p.message, "N/A")
    ensures row[5] == Or(p.ip, "UNKNOWN")
    ensures row[6] == Risk(p.fingerprint.webdriver, p.behavior.pasteDetected)
    ensures row[10] == (if p.behavior.pasteDetected then "YES" else "NO")
    ensures row[13] == p.metaJson
  {
    var fp, behavior := p.fingerprint, p.behavior;
    [ timestamp,
      LeadType(p),
      Or(p.name, "N/A"),
      Or(p.email, "N/A"),
      Or(p.message, "N/A"),
      Or(p.ip, "UNKNOWN"),
      Risk(fp.webdriver, behavior.pasteDetected),
      Signature(fp),
      Or(fp.platform, "N/A") + " - " + Or(fp.userAgent, "N/A"),
      Or(behavior.typingFormatted, "N/A"),
      if behavior.pasteDetected then "YES" else "NO",
      Or(fp.screen, "N/A"),
      Or(fp.hardwareConcurrency, "N/A") + " Cores / " + Or(fp.deviceMemory, "N/A") + "GB",
      p.metaJson ]
  }

  /** The paste column and the risk column agree with the paste flag. */
  lemma PasteColumnsAgree(p: LeadPayload, timestamp: string)
    ensures var row := EvidenceRow(p, timestamp);
      (row[10] == "YES" <==> p.behavior.pasteDetected)
      && (row[6] == "MEDIUM" ==> row[10] == "YES")
      && (row[10] == "YES" ==> row[6] != "LOW")
  {
  }

  const LeadsTab: string := "Leads"
  const FallbackTab: string := "automation heath"

  /** Which environment URLs are set (`ROI_NOTIFICATION_URL`, `CONTACT_NOTIFICATION_URL`). */
  datatype LeadsEnv = LeadsEnv(
    dashboardApiKey: Option<string>,
    sheetConfigured: bool,
    roiUrl: Option<string>,
    contactUrl: Option<string>)

  /** `ROI_CALC` leads go to the ROI bridge, every other type to the contact bridge. */
  function NotificationUrl(p: LeadPayload, env: LeadsEnv): (url: Option<string>)
    ensures LeadType(p) == "ROI_CALC" ==> url == env.roiUrl
    ensures LeadType(p) != "ROI_CALC" ==> url == env.contactUrl
  {
    if LeadType(p) == "ROI_CALC" then env.roiUrl else env.contactUrl
  }

  /** The success body's `saved_to`, and the bridge the payload was forwarded to, if any. */
  datatype Receipt = Receipt(savedTo: string, forwardedTo: Option<string>)

  /** Which of the three outbound calls throw: the two appends and the bridge `fetch`. */
  datatype LeadFaults = LeadFaults(firstAppendFails: bool, fallbackAppendFails: bool, bridgeFails: bool)

  /** The reply once the row is saved to `tab`: a bridge call that throws still fails the request. */
  function AfterSave(tab: string, url: Option<string>, faults: LeadFaults): Reply<Receipt> {
    if Truthy(url) && faults.bridgeFails then Err(500, "Failed to submit lead")
    else Ok(Receipt(tab, if Truthy(url) then url else None))
  }

  /**
   * The `POST` handler: `apiKey` is the `x-api-key` header and `now` the ISO time.
   * An append to a tab that does not exist throws as well.
   */
  method Post(wb: Workbook, env: LeadsEnv, apiKey: Option<string>, p: LeadPayload, now: string, faults: LeadFaults)
    returns (r: Reply<Receipt>)
    requires wb.Valid()
    modifies wb
    ensures wb.Valid()
    ensures
      var row := EvidenceRow(p, now);
      var url := NotificationUrl(p, env);
      if !KeyAccepted(apiKey, env.dashboardApiKey) then
        r == Err(403, "Forbidden") && unchanged(wb)
      else if !env.sheetConfigured then
        r == Err(500, "Not configured") && unchanged(wb)
      else if LeadsTab in old(wb.tabs) && !faults.firstAppendFails then
        && wb.tabs == old(wb.tabs)[LeadsTab := old(wb.tabs)[LeadsTab] + [row]]
        && r == AfterSave(LeadsTab, url, faults)
      else if FallbackTab in old(wb.tabs) && !faults.fallbackAppendFails then
        && wb.tabs == old(wb.tabs)[FallbackTab := old(wb.tabs)[FallbackTab] + [row]]
        && r == AfterSave(FallbackTab, url, faults)
      else
        r == Err(500, "Failed to submit lead") && unchanged(wb)
  {
    if !Truthy(env.dashboardApiKey) || apiKey != env.dashboardApiKey {
      return Err(403, "Forbidden");
    }
    if !env.sheetConfigured {
      return Err(500, "Not configured");
    }
    var timestamp := now;
    var rowData := EvidenceRow(p, timestamp);
    var sourceTab := LeadsTab;
    if LeadsTab in wb.tabs && !faults.firstAppendFails {
      wb.tabs := wb.tabs[LeadsTab := wb.tabs[LeadsTab] + [rowData]];
    } else {
      sourceTab := FallbackTab;
      if FallbackTab in wb.tabs && !faults.fallbackAppendFails {
        wb.tabs := wb.tabs[FallbackTab := wb.tabs[FallbackTab] + [rowData]];
      } else {
        return Err(500, "Failed to submit lead");
      }
    }
    var notificationUrl := NotificationUrl(p, env);
    if Truthy(notificationUrl) && faults.bridgeFails {
      return Err(500, "Failed to submit lead");
    }
    return Ok(Receipt(sourceTab, if Truthy(notificationUrl) then notificationUrl else None));
  }

  /** One lead of the `GET` listing, read from columns A-E of a row. */
  datatype Lead = Lead(
    timestamp: Option<string>,
    name: Option<string>,
    email: Option<string>,
    company: Option<string>,
    notes: string)

  function LeadOf(row: Row): Lead {
    Lead(Cell(row, 0), Cell(row, 1), Cell(row, 2), Cell(row, 3), Or(Cell(row, 4), ""))
  }

  /**
   * The `GET` handler: `configured` says whether `GOOGLE_SHEET_ID` is set (checked before the
   * session), `hasToken` whether a session token is present, `read` the result of `Leads!A2:E`.
   */
  function List(configured: bool, hasToken: bool, read: Fetch): (r: Reply<seq<Lead>>)
    ensures !configured ==> r == Err(500, "Not configured")
    ensures configured && !hasToken ==> r == Err(401, "Unauthorized")
    ensures configured && hasToken && read.FetchFailed? ==> r == Err(500, "Failed to fetch leads")
    ensures configured && hasToken && read.Fetched? ==> r.Ok?
    ensures r.Ok? ==>
      && configured && hasToken && read.Fetched?
      && |r.value| == |read.rows|
      && forall i :: 0 <= i < |read.rows| ==> r.value[i] == LeadOf(read.rows[i])
  {
    if !configured then Err(500, "Not configured")
    else if !hasToken then Err(401, "Unauthorized")
    else match read
      case FetchFailed(_) => Err(500, "Failed to fetch leads")
      case Fetched(rows) => Ok(seq(|rows|, i requires 0 <= i < |rows| => LeadOf(rows[i])))
  }

  /** A lead appended below a header shows up as the last entry of the next listing. */
  lemma AppendedLeadIsListedLast(tab: seq<Row>, row: Row)
    requires |tab| >= 1
    ensures List(true, true, Fetched(Snapshot(tab + [row], 1))).value
         == List(true, true, Fetched(Snapshot(tab, 1))).value + [LeadOf(row)]
  {
    assert Snapshot(tab + [row], 1) == Snapshot(tab, 1) + [row];
  }

  /**
   * The listing reads columns B, C, D as name, email and company, where the evidence row
   * keeps the type, the name and the email: an evidence row is listed that way.
   */
  lemma EvidenceRowAsListed(p: LeadPayload, timestamp: string)
    ensures var lead := LeadOf(EvidenceRow(p, timestamp));
      && lead.timestamp == Some(timestamp)
      && lead.name == Some(LeadType(p))
      && lead.email == Some(Or(p.name, "N/A"))
      && lead.company == Some(Or(p.email, "N/A"))
      && lead.notes == Or(p.message, "N/A")
  {
  }
}
