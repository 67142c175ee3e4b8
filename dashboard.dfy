/** The per-browser session of the dashboard (`st.session_state`) and the
    transitions the page script applies to it. */
module Dashboard {
  import opened Common
  import opened Events
  import opened Lumin
  import opened Speech
  import opened Users

  datatype Role = UserRole | BotRole

  /** One line of the chat transcript: `{'role': ..., 'msg': ...}`. */
  datatype ChatEntry = ChatEntry(role: Role, msg: string)

  /** What an e-mail reports. */
  datatype Report = LoginReport(user: string) | AlertReport(magnitude: int, location: string)

  /** An e-mail handed to the mail server. */
  datatype Notice = Notice(to: string, report: Report)

  /** The messages the sidebar upload puts on the page. */
  datatype UploadMessage = DataLinked | InvalidFormat | CorruptStream

  /** The alert threshold, 5.0, in hundredths. */
  const AlertThreshold := 500

  /** `send_email`'s guard on a text address: non-empty and holding an '@'. */
  predicate CanMail(to: string) {
    to != [] && '@' in to
  }

  /** The e-mails one call of `send_email(to, ...)` hands to the mail
      server. A NaN address passes `not to` (NaN is truthy) and then makes
      `"@" in to` raise. */
  function Mail(to: Cell, report: Report): (r: Outcome<seq<Notice>>)
    ensures r.Raised? <==> to.Nan?
    ensures r.Raised? ==> r.error == NotIterable
    ensures r.Ok? ==> |r.value| <= 1 && (r.value != [] <==> CanMail(to.text))
    ensures r.Ok? ==> forall n :: n in r.value ==> n == Notice(to.text, report)
  {
    match to
    case Nan => Raised(NotIterable)
    case Text(s) => if CanMail(s) then Ok([Notice(s, report)]) else Ok([])
  }

  /** The number of alert e-mails in `outbox`. */
  function AlertsSent(outbox: seq<Notice>): nat {
    if outbox == [] then 0
    else AlertsSent(outbox[..|outbox| - 1]) + (if outbox[|outbox| - 1].report.AlertReport? then 1 else 0)
  }

  /** The count is zero exactly when no e-mail in the outbox is an alert. */
  lemma {:induction false} NoAlertsSent(outbox: seq<Notice>)
    ensures AlertsSent(outbox) <= |outbox|
    ensures AlertsSent(outbox) == 0 <==> forall i :: 0 <= i < |outbox| ==> !outbox[i].report.AlertReport?
  {
    if outbox != [] {
      var front := outbox[..|outbox| - 1];
      NoAlertsSent(front);
      assert forall i :: 0 <= i < |front| ==> front[i] == outbox[i];
    }
  }

  /** Appending at most one e-mail adds one to the count exactly when it is an alert. */
  lemma AlertsSentAppend(outbox: seq<Notice>, more: seq<Notice>)
    requires |more| <= 1
    ensures AlertsSent(outbox + more)
         == AlertsSent(outbox) + (if more != [] && more[0].report.AlertReport? then 1 else 0)
  {
    if more != [] {
      assert (outbox + more)[..|outbox + more| - 1] == outbox;
    } else {
      assert outbox + more == outbox;
    }
  }

  /** One pass of the alert check with latch value `alert` over table `t`:
      the row to report, no report, or the exception the check raises. */
  function AlertDecision(alert: bool, t: Table): (r: Outcome<Option<Event>>)
    ensures alert || IsEmpty(t) ==> r == Ok(None)
    ensures r.Ok? && r.value.Some? ==> !alert && !IsEmpty(t) && r.value.value.magnitude >= AlertThreshold
    ensures !alert && !IsEmpty(t) && "Magnitude" !in t.columns ==> r == Raised(MissingColumn("Magnitude"))
    ensures r.Ok? && r.value.Some? ==> "Location" in t.columns
    ensures r.Raised? && "Magnitude" in t.columns ==> r.error == MissingColumn("Location") && "Location" !in t.columns
  {
    if alert || IsEmpty(t) then Ok(None)
    else match PeakRow(t)
      case Raised(e) => Raised(e)
      case Ok(row) =>
        if row.magnitude < AlertThreshold then Ok(None)
        else if "Location" !in t.columns then Raised(MissingColumn("Location"))
        else Ok(Some(row))
  }

  /** The row an alert reports is the first row of largest magnitude. */
  lemma AlertReportsFirstPeak(alert: bool, t: Table)
    requires AlertDecision(alert, t).Ok? && AlertDecision(alert, t).value.Some?
    ensures exists k :: IsFirstPeak(t.rows, k) && AlertDecision(alert, t).value.value == t.rows[k]
  {
  }

  /** With the latch clear and both columns present, a non-empty table
      fires the alert iff one of its rows reaches 5.0. */
  lemma AlertFiresIff(alert: bool, t: Table)
    requires !alert && !IsEmpty(t) && "Magnitude" in t.columns && "Location" in t.columns
    ensures AlertDecision(alert, t).Ok?
    ensures AlertDecision(alert, t).value.Some? <==>
      exists k :: 0 <= k < |t.rows| && t.rows[k].magnitude >= AlertThreshold
  {
    var k := ArgMax(t.rows);
    assert IsFirstPeak(t.rows, k);
  }

  /** With the latch clear and a Magnitude column but no Location column,
      a non-empty table makes the check raise `KeyError('Location')` iff one
      of its rows reaches 5.0. */
  lemma MissingLocationRaisesIff(t: Table)
    requires !IsEmpty(t) && "Magnitude" in t.columns && "Location" !in t.columns
    ensures AlertDecision(false, t).Raised? <==>
      exists k :: 0 <= k < |t.rows| && t.rows[k].magnitude >= AlertThreshold
    ensures AlertDecision(false, t).Raised? ==> AlertDecision(false, t).error == MissingColumn("Location")
  {
    var k := ArgMax(t.rows);
    assert IsFirstPeak(t.rows, k);
  }

  /** A table whose every magnitude is below 5.0 never trips the alert. */
  lemma QuietBelowThreshold(alert: bool, t: Table)
    requires "Magnitude" in t.columns
    requires forall k :: 0 <= k < |t.rows| ==> t.rows[k].magnitude < AlertThreshold
    ensures AlertDecision(alert, t) == Ok(None)
  {
  }

  /** The whole alert block of one run (lines 345-350) with latch `alert`,
      active table `t` and session e-mail `to`: no alert, the alert e-mails
      sent as the latch is set, or the exception that ends the run first. */
  function AlertPass(alert: bool, t: Table, to: Cell): (r: Outcome<Option<seq<Notice>>>)
    ensures AlertDecision(alert, t).Raised? ==> r == Raised(AlertDecision(alert, t).error)
    ensures AlertDecision(alert, t) == Ok(None) ==> r == Ok(None)
    ensures AlertDecision(alert, t).Ok? && AlertDecision(alert, t).value.Some? ==>
      (r.Raised? <==> to.Nan?)
    ensures AlertDecision(alert, t).Ok? && AlertDecision(alert, t).value.Some? && to.Text? ==>
      var row := AlertDecision(alert, t).value.value;
      r == Ok(Some(Mail(to, AlertReport(row.magnitude, row.location)).value))
    ensures r.Ok? && r.value.Some? ==>
      && |r.value.value| <= 1
      && (r.value.value != [] ==> r.value.value[0].report == AlertReport(AlertDecision(alert, t).value.value.magnitude,
                                                                         AlertDecision(alert, t).value.value.location))
  {
    match AlertDecision(alert, t)
    case Raised(e) => Raised(e)
    case Ok(None) => Ok(None)
    case Ok(Some(row)) =>
      match Mail(to, AlertReport(row.magnitude, row.location))
      case Raised(e) => Raised(e)
      case Ok(sent) => assert sent != [] ==> sent[0] in sent; Ok(Some(sent))
  }

  /** Once the latch is set the alert block does nothing, whatever the table. */
  lemma LatchedAlertIsQuiet(t: Table, to: Cell)
    ensures AlertPass(true, t, to) == Ok(None)
  {
  }

  /** A session whose e-mail cell is NaN raises in the alert block of every
      run over a table that peaks at 5.0 or more, before the latch is set. */
  lemma NanAddressNeverLatches(t: Table)
    requires "Magnitude" in t.columns && "Location" in t.columns && t.columns != {}
    requires exists k :: 0 <= k < |t.rows| && t.rows[k].magnitude >= AlertThreshold
    ensures AlertPass(false, t, Nan) == Raised(NotIterable)
  {
    AlertFiresIff(false, t);
  }

  /** A non-empty table without a Magnitude column raises in the alert block
      of every run while the latch is clear. */
  lemma MissingMagnitudeRaises(t: Table, to: Cell)
    requires !IsEmpty(t) && "Magnitude" !in t.columns
    ensures AlertPass(false, t, to) == Raised(MissingColumn("Magnitude"))
  {
  }

  /** The columns the analytics tab reads from a non-empty table up to the
      map, in the order it first reads them (lines 394, 395 and 398-401). */
  const MapColumns: seq<string> := ["Magnitude", "Depth", "Lat", "Lon", "Location"]

  /** Every column the analytics tab reads; Time is read last (line 412). */
  const ChartColumns: seq<string> := MapColumns + ["Time"]

  /** The first name in `order` that is not in `cols`. */
  function FirstMissing(cols: set<string>, order: seq<string>): (r: Option<string>)
    ensures r.Some? ==> r.value !in cols && r.value in order
    ensures r.None? <==> forall i :: 0 <= i < |order| ==> order[i] in cols
  {
    if order == [] then None
    else if order[0] !in cols then Some(order[0])
    else
      var r := FirstMissing(cols, order[1..]);
      assert forall i :: 1 <= i < |order| ==> order[i] == order[1..][i - 1];
      r
  }

  /** Some row has a negative magnitude, which the map uses as marker size. */
  predicate NegativeMagnitude(t: Table) {
    exists k | 0 <= k < |t.rows| :: t.rows[k].magnitude < 0
  }

  /** The analytics tab (lines 390-423) on a non-empty table raises on the
      first column it reads that is missing (a KeyError for Magnitude or
      Depth, plotly's ValueError for Lat, Lon or Location), then on a
      negative magnitude, which plotly refuses as a marker size (lines
      398-401), then on a missing Time (line 412); an empty table only
      shows a warning. */
  function ChartsCheck(t: Table): (r: Outcome<()>)
    ensures IsEmpty(t) ==> r == Ok(())
    ensures r.Raised? <==>
      !IsEmpty(t) && ((exists i :: 0 <= i < |ChartColumns| && ChartColumns[i] !in t.columns) || NegativeMagnitude(t))
    ensures r.Raised? ==>
      || (r.error.MissingColumn? && r.error.column !in t.columns)
      || (r.error == InvalidMarkerSize && NegativeMagnitude(t))
    ensures r == Raised(InvalidMarkerSize) ==>
      forall i :: 0 <= i < |MapColumns| ==> MapColumns[i] in t.columns
  {
    if IsEmpty(t) then Ok(())
    else match FirstMissing(t.columns, MapColumns)
      case Some(c) =>
        assert c in ChartColumns;
        Raised(MissingColumn(c))
      case None =>
        if NegativeMagnitude(t) then Raised(InvalidMarkerSize)
        else if "Time" !in t.columns then
          assert ChartColumns[|MapColumns|] == "Time";
          Raised(MissingColumn("Time"))
        else
          assert forall i :: 0 <= i < |ChartColumns| ==> ChartColumns[i] in t.columns by {
            forall i | 0 <= i < |ChartColumns| ensures ChartColumns[i] in t.columns {
              if i < |MapColumns| { assert ChartColumns[i] == MapColumns[i]; }
            }
          }
          Ok(())
  }

  /** A table the sidebar upload accepts makes the analytics tab raise iff
      one of its magnitudes is negative. */
  lemma LinkedTableCharts(t: Table)
    requires RequiredColumns <= t.columns
    ensures ChartsCheck(t).Raised? <==> NegativeMagnitude(t)
    ensures ChartsCheck(t).Raised? ==> ChartsCheck(t).error == InvalidMarkerSize
  {
    forall i | 0 <= i < |ChartColumns| ensures ChartColumns[i] in t.columns {
      assert ChartColumns[i] in RequiredColumns;
    }
    if NegativeMagnitude(t) {
      assert !IsEmpty(t);
    }
  }

  /** An accepted upload with one event of magnitude -0.5 makes the
      analytics tab raise on every run that shows it. */
  lemma NegativeMagnitudeExample()
    ensures ChartsCheck(Table(RequiredColumns, [Event(0, -50, "x", 1.0, 0.0, 0.0)])) == Raised(InvalidMarkerSize)
  {
    var t := Table(RequiredColumns, [Event(0, -50, "x", 1.0, 0.0, 0.0)]);
    assert t.rows[0].magnitude < 0;
    LinkedTableCharts(t);
  }

  /** The user input that triggers one run of the dashboard script. */
  datatype Action =
    | Idle                                  // a run with no new input
    | TerminateLink                         // "TERMINATE LINK" (line 356)
    | FileUploaded(file: Option<Table>)     // a CSV in the sidebar uploader (line 368); None if unreadable
    | RestorePressed                        // "RESTORE LIVE FEED" (line 382)
    | Transmitted(txt: string)              // "TRANSMIT" in the chat tab (line 439)
    | OverrideUploaded(file: Option<Table>) // the administrator's override uploader (line 495)

  /** The part of a session that the handlers after the alert block read or change. */
  datatype Page = Page(authed: bool, user: Option<string>, customCsv: Option<Table>,
                       chat: seq<ChatEntry>, speakTxt: string)

  /** The run goes on past "TERMINATE LINK" and "RESTORE LIVE FEED", which end it. */
  predicate PastButtons(action: Action) {
    action != TerminateLink && action != RestorePressed
  }

  /** The action puts a question to Lumin: `if sub and txt` (line 441). */
  predicate AsksLumin(action: Action) {
    action.Transmitted? && action.txt != ""
  }

  /** The data source after the sidebar upload of `action` (lines 368-380):
      a readable table with the six required columns replaces it. */
  function AfterUpload(c: Option<Table>, action: Action): (r: Option<Table>)
    ensures action.FileUploaded? && action.file.Some? && RequiredColumns <= action.file.value.columns ==>
      r == action.file
    ensures !(action.FileUploaded? && action.file.Some? && RequiredColumns <= action.file.value.columns) ==>
      r == c
  {
    if action.FileUploaded? && action.file.Some? && RequiredColumns <= action.file.value.columns
    then action.file else c
  }

  /** What the tabs do for `action` (lines 390-496), taking page `p` to page
      `q` with outcome `o`, where `t` is the table the run started with: the
      analytics tab may raise; then a question is answered, or else the
      pending speech is flushed and the administrator's override applied. */
  ghost predicate InTabs(p: Page, q: Page, t: Table, action: Action, search: string -> string, o: Outcome<()>) {
    && q.authed == p.authed && q.user == p.user
    && (!action.OverrideUploaded? ==> q.customCsv == p.customCsv)
    && (ChartsCheck(t).Raised? ==> o == Raised(ChartsCheck(t).error) && q == p)
    && (ChartsCheck(t).Ok? && AsksLumin(action) ==>
          match LuminBrain(action.txt, t, search)
          case Ok(ans) =>
            && o == Ok(()) && q.speakTxt == ans
            && q.chat == p.chat + [ChatEntry(UserRole, action.txt), ChatEntry(BotRole, ans)]
          case Raised(e) =>
            o == Raised(e) && q.speakTxt == p.speakTxt && q.chat == p.chat + [ChatEntry(UserRole, action.txt)])
    && (ChartsCheck(t).Ok? && !AsksLumin(action) ==> q.chat == p.chat && q.speakTxt == "")
    && (ChartsCheck(t).Ok? && !AsksLumin(action) && !action.OverrideUploaded? ==> o == Ok(()))
    && (action.OverrideUploaded? && ChartsCheck(t).Ok? ==>
          if p.user == Some(AdminName) then
            if action.file.Some? then q.customCsv == action.file && o == Ok(())
            else q.customCsv == p.customCsv && o == Raised(UnreadableFile)
          else q.customCsv == p.customCsv && o == Ok(()))
  }

  /** What the handlers after the alert block do for `action`, taking page
      `p` to page `q` with outcome `o`: the two buttons that end the run,
      and otherwise the sidebar upload followed by the tabs. */
  ghost predicate Responds(p: Page, q: Page, t: Table, action: Action, search: string -> string, o: Outcome<()>) {
    && (action == TerminateLink ==> q == p.(authed := false) && o == Ok(()))
    && (action == RestorePressed ==> q == p.(customCsv := None) && o == Ok(()))
    && (PastButtons(action) ==> InTabs(p.(customCsv := AfterUpload(p.customCsv, action)), q, t, action, search, o))
  }

  class Session {
    var authed: bool
    var user: Option<string>
    var email: Option<Cell>
    var alert: bool
    var customCsv: Option<Table>
    var chat: seq<ChatEntry>
    var speakTxt: string
    var outbox: seq<Notice>

    /** At most one alert e-mail per session, none while the latch is clear. */
    ghost predicate Valid()
      reads this
    {
      && AlertsSent(outbox) <= 1
      && (!alert ==> AlertsSent(outbox) == 0)
      && (authed ==> user.Some? && email.Some?)
    }

    /** A logged-in session whose upload makes the alert block raise: every
        run ends there, before any button, upload or chat handler is reached. */
    ghost predicate Blocked()
      reads this
    {
      authed && email.Some? && customCsv.Some? && AlertPass(alert, customCsv.value, email.value).Raised?
    }

    /** What the alert block does on the next run over live feed `live`. */
    ghost function NextAlert(live: Table): Outcome<Option<seq<Notice>>>
      reads this
      requires email.Some?
    {
      AlertPass(alert, ActiveTable(live), email.value)
    }

    /** The page state the handlers after the alert block work on. */
    function View(): Page
      reads this`authed, this`user, this`customCsv, this`chat, this`speakTxt
    {
      Page(authed, user, customCsv, chat, speakTxt)
    }

    /** The defaults a new session starts from. */
    constructor ()
      ensures Valid()
      ensures !authed && user == None && email == None && !alert && customCsv == None
      ensures chat == [] && speakTxt == "" && outbox == []
    {
      authed, user, email, alert, customCsv := false, None, None, false, None;
      chat, speakTxt, outbox := [], "", [];
    }

    /** The table the dashboard shows: the upload if there is one, else the live feed. */
    function ActiveTable(live: Table): (t: Table)
      reads this
      ensures customCsv.Some? ==> t == customCsv.value
      ensures customCsv.None? ==> t == live
    {
      if customCsv.Some? then customCsv.value else live
    }

    /** "ESTABLISH CONNECTION" on the login page. The session is logged in
        before the login e-mail is attempted, so a NaN e-mail cell raises
        with the session already logged in. */
    method Login(store: UserStore, u: string, p: string) returns (o: Outcome<bool>)
      requires Valid() && !authed
      modifies this`authed, this`user, this`email, this`outbox, store
      ensures Valid()
      ensures store.rows == old(store.rows)
      ensures !LoginReply(old(store.rows), u, p).0 ==>
        o == Ok(false) && !authed && user == old(user) && email == old(email) && outbox == old(outbox)
      ensures LoginReply(old(store.rows), u, p).0 ==>
        && authed && user == Some(u) && email == LoginReply(old(store.rows), u, p).1 && email.Some?
        && match Mail(email.value, LoginReport(u))
           case Raised(e) => o == Raised(e) && outbox == old(outbox)
           case Ok(sent) => o == Ok(true) && outbox == old(outbox) + sent
    {
      var ok, em := store.Auth(u, p, "", SignIn);
      if !ok {
        return Ok(false);
      }
      authed, user, email := true, Some(u), em;
      match Mail(em.value, LoginReport(u))
      case Raised(e) =>
        o := Raised(e);
      case Ok(sent) =>
        assert sent != [] ==> sent[0] in sent;
        AlertsSentAppend(outbox, sent);
        outbox := outbox + sent;
        o := Ok(true);
    }

    /** "TERMINATE LINK": only the login flag changes; the alert latch,
        the chosen data source and the transcript stay as they are. */
    method Logout()
      requires Valid() && authed
      modifies this`authed
      ensures Valid() && !authed && alert == old(alert)
    {
      authed := false;
    }

    /** The sidebar upload: `file` is `None` when the CSV could not be read.
        Only a table with all six required columns becomes the data source.
        Its `st.rerun()` raises inside the `try`, the bare `except` catches
        it, and so an accepted file also shows "CORRUPT FILE STREAM" and the
        run carries on. */
    method Upload(file: Option<Table>) returns (shown: seq<UploadMessage>)
      requires Valid() && authed
      modifies this`customCsv
      ensures Valid()
      ensures alert == old(alert)
      ensures file.None? ==> shown == [CorruptStream] && customCsv == old(customCsv)
      ensures file.Some? && RequiredColumns <= file.value.columns ==>
        shown == [DataLinked, CorruptStream] && customCsv == file
      ensures file.Some? && !(RequiredColumns <= file.value.columns) ==>
        shown == [InvalidFormat] && customCsv == old(customCsv)
    {
      if file.None? {
        return [CorruptStream];
      }
      if RequiredColumns <= file.value.columns {
        customCsv := file;
        return [DataLinked, CorruptStream];
      }
      return [InvalidFormat];
    }

    /** "RESTORE LIVE FEED": the upload is dropped and the live feed is shown again. */
    method RestoreLiveFeed()
      requires Valid() && authed
      modifies this`customCsv
      ensures Valid() && customCsv == None && alert == old(alert)
    {
      customCsv := None;
    }

    /** The administrator's override upload: whatever the CSV holds becomes
        the data source, without any column check; an unreadable file raises. */
    method AdminOverride(file: Option<Table>) returns (o: Outcome<()>)
      requires Valid() && authed && user == Some(AdminName)
      modifies this`customCsv
      ensures Valid()
      ensures alert == old(alert)
      ensures file.None? ==> o == Raised(UnreadableFile) && customCsv == old(customCsv)
      ensures file.Some? ==> o == Ok(()) && customCsv == file
    {
      if file.None? {
        return Raised(UnreadableFile);
      }
      customCsv := file;
      o := Ok(());
    }

    /** The alert block at the top of every dashboard run, over the active
        table (`live` is what the live feed returns). It fires at most once:
        firing sets the latch, and nothing ever clears it. */
    method EvaluateAlert(live: Table) returns (o: Outcome<bool>)
      requires Valid() && authed
      modifies this`alert, this`outbox
      ensures Valid()
      ensures match AlertPass(old(alert), ActiveTable(live), email.value)
        case Raised(e) => o == Raised(e) && alert == old(alert) && outbox == old(outbox)
        case Ok(None) => o == Ok(false) && alert == old(alert) && outbox == old(outbox)
        case Ok(Some(sent)) => o == Ok(true) && alert && outbox == old(outbox) + sent
    {
      var pass := AlertPass(alert, ActiveTable(live), email.value);
      if pass.Raised? {
        return Raised(pass.error);
      }
      if pass.value.None? {
        return Ok(false);
      }
      var sent := pass.value.value;
      assert !alert && |sent| <= 1;
      AlertsSentAppend(outbox, sent);
      outbox := outbox + sent;
      alert := true;
      o := Ok(true);
    }

    /** "TRANSMIT" in the chat tab: a non-empty question is appended, then
        Lumin's answer about `df`, the table the run started with; if
        answering raises, the question stays without one. */
    method Submit(txt: string, df: Table, search: string -> string) returns (o: Outcome<Option<string>>)
      requires Valid() && authed
      modifies this`chat, this`speakTxt
      ensures Valid()
      ensures txt == "" ==> o == Ok(None) && chat == old(chat) && speakTxt == old(speakTxt)
      ensures txt != "" && LuminBrain(txt, df, search).Ok? ==>
        var ans := LuminBrain(txt, df, search).value;
        && o == Ok(Some(ans)) && speakTxt == ans
        && chat == old(chat) + [ChatEntry(UserRole, txt), ChatEntry(BotRole, ans)]
      ensures txt != "" && LuminBrain(txt, df, search).Raised? ==>
        && o == Raised(LuminBrain(txt, df, search).error) && speakTxt == old(speakTxt)
        && chat == old(chat) + [ChatEntry(UserRole, txt)]
    {
      if txt == "" {
        return Ok(None);
      }
      chat := chat + [ChatEntry(UserRole, txt)];
      var ans := LuminBrain(txt, df, search);
      if ans.Raised? {
        return Raised(ans.error);
      }
      chat := chat + [ChatEntry(BotRole, ans.value)];
      speakTxt := ans.value;
      o := Ok(Some(ans.value));
    }

    /** The pending answer is spoken once, sanitised, and then cleared. */
    method FlushSpeech() returns (utterance: Option<string>)
      requires Valid() && authed
      modifies this`speakTxt
      ensures Valid() && speakTxt == ""
      ensures utterance == if old(speakTxt) == "" then None else Some(Sanitise(old(speakTxt)))
    {
      utterance := if speakTxt == "" then None else Some(Sanitise(speakTxt));
      speakTxt := "";
    }

    /** The tabs of a run (lines 390-496) for `action`, with `t` the table
        the run started with: the analytics tab, the chat, the pending
        speech and the administrator's override, in the script's order. */
    method Tabs(t: Table, action: Action, search: string -> string) returns (o: Outcome<()>)
      requires Valid() && authed
      modifies this`customCsv, this`chat, this`speakTxt
      ensures Valid()
      ensures InTabs(old(View()), View(), t, action, search, o)
    {
      var charts := ChartsCheck(t);
      if charts.Raised? {
        return Raised(charts.error);
      }
      if AsksLumin(action) {
        var answer := Submit(action.txt, t, search);
        return if answer.Raised? then Raised(answer.error) else Ok(());
      }
      var utterance := FlushSpeech();
      if action.OverrideUploaded? && user == Some(AdminName) {
        o := AdminOverride(action.file);
        return;
      }
      o := Ok(());
    }

    /** The part of a run after the alert block, for `action`, with `t` the
        table the run started with: "TERMINATE LINK", the sidebar upload,
        "RESTORE LIVE FEED", then the tabs. A handler that calls
        `st.rerun()` ends the run; an exception ends it with the state
        changed so far. None of them touches the alert latch. */
    method Respond(t: Table, action: Action, search: string -> string) returns (o: Outcome<()>)
      requires Valid() && authed
      modifies this`authed, this`customCsv, this`chat, this`speakTxt
      ensures Valid()
      ensures Responds(old(View()), View(), t, action, search, o)
    {
      if action == TerminateLink {
        Logout();
        return Ok(());
      }
      if action.FileUploaded? {
        var shown := Upload(action.file);
      }
      if action == RestorePressed {
        RestoreLiveFeed();
        return Ok(());
      }
      o := Tabs(t, action, search);
    }

    /** One run of the dashboard branch (lines 335-496) triggered by
        `action`: the alert block, then `Respond` unless the alert block
        raised. A blocked session stays blocked whatever the user does. */
    method Run(live: Table, action: Action, search: string -> string) returns (o: Outcome<()>)
      requires Valid() && authed
      modifies this`alert, this`outbox, this`authed, this`customCsv, this`chat, this`speakTxt
      ensures Valid()
      ensures old(NextAlert(live)).Raised? ==>
        o == Raised(old(NextAlert(live)).error) && unchanged(this)
      ensures old(Blocked()) ==> Blocked() && o.Raised?
      ensures old(NextAlert(live)) == Ok(None) ==> alert == old(alert) && outbox == old(outbox)
      ensures old(NextAlert(live)).Ok? && old(NextAlert(live)).value.Some? ==>
        alert && outbox == old(outbox) + old(NextAlert(live)).value.value
      ensures old(NextAlert(live)).Ok? ==>
        Responds(old(View()), View(), old(ActiveTable(live)), action, search, o)
      ensures old(alert) ==> alert
      ensures action == TerminateLink && old(NextAlert(live)).Ok? ==> !authed
      ensures action.OverrideUploaded? && old(user) != Some(AdminName) ==> customCsv == old(customCsv)
    {
      var t := ActiveTable(live);
      var fired := EvaluateAlert(live);
      if fired.Raised? {
        return Raised(fired.error);
      }
      o := Respond(t, action, search);
    }
  }

  /** A new session in which the administrator has just logged in. */
  method AdminSession() returns (s: Session)
    ensures fresh(s) && s.Valid() && s.authed && !s.alert && s.user == Some(AdminName)
    ensures s.email == Some(Text(AdminEmail)) && s.customCsv == None && AlertsSent(s.outbox) == 0
  {
    var store := new UserStore();
    s := new Session();
    assert LoginReply(store.rows, AdminName, AdminPass) == (true, Some(Text(AdminEmail)));
    var o := s.Login(store, AdminName, AdminPass);
    assert s.authed && s.email == Some(Text(AdminEmail));
  }

  /** Over a table whose peak is at least 5.0, a fresh administrator session
      sends one alert on the first check and none on the second. */
  method AlertFiresOnce(live: Table) returns (first: Outcome<bool>, second: Outcome<bool>, alerts: nat)
    requires "Magnitude" in live.columns && "Location" in live.columns
    requires exists k :: 0 <= k < |live.rows| && live.rows[k].magnitude >= AlertThreshold
    ensures first == Ok(true) && second == Ok(false) && alerts == 1
  {
    AlertFiresIff(false, live);
    var row := AlertDecision(false, live).value.value;
    var sent := Mail(Text(AdminEmail), AlertReport(row.magnitude, row.location)).value;
    var s := AdminSession();
    assert s.ActiveTable(live) == live;
    var before := s.outbox;
    first := s.EvaluateAlert(live);
    assert s.outbox == before + sent;
    AlertsSentAppend(before, sent);
    second := s.EvaluateAlert(live);
    alerts := AlertsSent(s.outbox);
  }

  /** A user registered with a blank e-mail logs in, but the login e-mail
      then raises on the NaN cell, after the session is already logged in. */
  method BlankEmailLogin() returns (registered: bool, o: Outcome<bool>, loggedIn: bool)
    ensures registered && o == Raised(NotIterable) && loggedIn
  {
    var store := new UserStore();
    var info;
    registered, info := store.Auth("quake", "pw", "", Register);
    RegisterThenLogin([], "quake", "pw", "");
    var s := new Session();
    o := s.Login(store, "quake", "pw");
    loggedIn := s.authed;
  }
}
