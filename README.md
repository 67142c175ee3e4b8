# SeismicGuard session logic in Dafny

SeismicGuard (`seismic_v4.py`) is a Streamlit dashboard for recent earthquakes. Users log in against a small CSV user table. The dashboard shows either the live USGS feed or a CSV the user uploaded. It e-mails a one-off alert when the peak magnitude reaches 5.0. It also has a rule-based chat assistant, Lumin, whose answers are read aloud.

This project models the parts of that script that are logic rather than layout, and proves what they guarantee:

- `common.dfy` (`Common`): the option and outcome types. An outcome is either a value or the Python exception the code would raise (`KeyError` on a missing column, `ValueError` from `argmax` on no rows, plotly's `ValueError` for a negative marker size, a `pd.read_csv` failure).
- `text.dfy` (`Text`): the Python string operations the code relies on:
  - `str.lower` (ASCII letters);
  - the substring test `in`;
  - `str.replace` (left to right, non-overlapping);
  - `str.strip` (Python's whitespace set);
  - the decimal rendering of numbers.
- `events.dfy` (`Events`): event rows and tables. A table has a set of column names and a sequence of rows. `df.empty` holds when there are no rows or no columns. It also holds `argmax` with its first-occurrence tie-break and the `KeyError`/`ValueError` that `df.iloc[df['Magnitude'].argmax()]` raises. Magnitudes are whole hundredths (5.0 is `500`).
- `feed.dfy` (`Feed`): the feature loop of `get_data`. Each feature becomes one six-field row, with coordinates in the order longitude, latitude, depth (RFC 7946, section 3.1.1). Any failure anywhere gives the empty table.
- `lumin.dfy` (`Lumin`): `CHART_KNOWLEDGE` and `lumin_brain`. The rules are tried in priority order:
  1. exact greeting;
  2. `"max"` anywhere in the text;
  3. the first chart keyword in table order;
  4. otherwise the cleaned question goes to the web lookup, which is a function parameter here.

  `lumin_examples.dfy` works two questions through the rules.
- `speech.dfy` (`Speech`): the sanitising `replace` chain of `speak`.
- `users.dfy` (`Users`): `auth`. The CSV user file is a sequence of `(u, p, e)` rows held by a `UserStore` object. Registration appends to it. Fields are written as text and read back as `pd.read_csv` does: a field spelled as one of pandas' default NA tokens (blank, `NA`, `N/A`, `null`, `None`, `nan`, `NaN`, `#N/A` and the rest) comes back as NaN. NaN prints as `"nan"`, equals no name, and is what `auth` returns as the e-mail of a user registered without one (or with such a spelling).
- `dashboard.dfy` (`Dashboard`): `st.session_state` as a `Session` object. Each button or upload handler is a method that updates its fields:
  - login and logout;
  - the validated upload, the administrator override and "restore live feed";
  - the one-shot alert;
  - chat submission;
  - the spoken answer.

  E-mails that `send_email` would hand to the mail server are appended to an `outbox` field. `send_email` drops any address that is empty or lacks an `@`, and raises `TypeError` on a NaN address (NaN is truthy, and `"@" in` NaN fails).

  `Session.Run` is one run of the dashboard branch of the script, triggered by one user action. It runs the alert block first, then (`Session.Respond`) the handlers in the script's order: "TERMINATE LINK", the sidebar upload, "RESTORE LIVE FEED", the analytics tab, the chat, the pending speech and the administrator's override. A handler that calls `st.rerun()` ends the run, and an exception ends it with the changes made so far.

The session invariant `Session.Valid` holds throughout. At most one alert e-mail is ever sent in a session, and none while the alert flag is clear. Nothing in the script clears the flag: it is only initialised when the session starts (line 301). Logout, uploads and restoring the live feed keep it, and so does a later login in the same browser session. Each method's contract states this. No code path re-arms the alert, a new login included.

Because the alert block runs before every handler, a session can get stuck. This happens when the latch is clear and the alert block raises on the uploaded table: an override table with rows but no Magnitude column, or one that peaks at 5.0 or more without a Location column. Every later run then raises in the alert block before the logout button, the uploaders or the chat are reached. `Session.Blocked` names this state, and `Session.Run` proves that no action leaves it. A user registered without an e-mail (or with one spelled as an NA token) is stuck in the same way whenever the live feed peaks at 5.0 or more: their e-mail cell is NaN, so the alert e-mail raises before the latch is set. Their login also raises, after the session is already logged in. A linked table with a negative magnitude (a small event can have one) passes the upload check, but the map refuses it as a marker size. Every run that shows it then raises in the analytics tab, before the chat and the override are handled; logout and "RESTORE LIVE FEED" still work.

## Model

| member | source | states |
|---|---|---|
| Text.Lower | seismic_v4.py:206 | lower-casing keeps the length of the text and leaves no upper-case ASCII letter: each one becomes its lower-case letter (code point plus 32), and every other character is kept |
| Text.LowerIdempotent | seismic_v4.py:206 | lower-casing twice is lower-casing once |
| Text.MatchFromIff | seismic_v4.py:208 | the character-by-character comparison agrees with slice equality |
| Text.ContainsFromIff | seismic_v4.py:208 | the scan from position i finds the pattern iff it occurs at some position at or after i |
| Text.ContainsIff | seismic_v4.py:208 | `pat in s` holds iff the pattern occurs at some position of the text |
| Text.Contains | seismic_v4.py:208 | the substring test `pat in s`; what it means is stated by `Text.ContainsIff` |
| Text.OccursInTail | seismic_v4.py:212 | an occurrence at n >= 1 is an occurrence at n-1 in the text without its first character |
| Text.AbsentCharNotContained | seismic_v4.py:212 | a pattern with a character the text lacks is not in the text |
| Text.ReplaceNothingFound | seismic_v4.py:213 | `replace` of a pattern that does not occur returns the text unchanged |
| Text.ReplaceAll | seismic_v4.py:213 | `str.replace`, left to right and non-overlapping; its properties are the `Replace*` rows |
| Text.ReplaceKeepsAbsent | seismic_v4.py:218 | `replace` introduces no character that is in neither the text nor the replacement |
| Text.Drop | seismic_v4.py:218 | deleting a character leaves no copy of it and adds nothing new |
| Text.Subst | seismic_v4.py:218 | substituting one character keeps the length, and every output character is the substitute or an original character other than the one replaced |
| Text.ReplaceCharByNothing | seismic_v4.py:218 | `replace(c, "")` is exactly the deletion of every `c` |
| Text.ReplaceCharByChar | seismic_v4.py:218 | `replace(c, d)` for single characters is exactly substitution, so each newline becomes exactly one space |
| Text.StripLeft | seismic_v4.py:213 | the result is a suffix of the text; everything removed is whitespace, and the result does not start with whitespace |
| Text.StripRight | seismic_v4.py:213 | the result is a prefix of the text; everything removed is whitespace, and the result does not end with whitespace |
| Text.Strip | seismic_v4.py:213 | the result is a slice of the text that neither starts nor ends with whitespace, and everything cut from either end of the text is whitespace |
| Text.StripBothTrims | seismic_v4.py:213 | stripping the left end and then the right end cuts nothing but whitespace, and only from the two ends |
| Text.NatToString | seismic_v4.py:210 | the decimal rendering of n is a non-empty string of digits whose value read back is n, with no leading zero unless it is "0" |
| Events.ArgMax | seismic_v4.py:209 | `argmax` returns the first row with the largest magnitude |
| Events.FirstPeakUnique | seismic_v4.py:209 | any first row of largest magnitude is the one `argmax` returns |
| Events.PeakTieBreakExample | seismic_v4.py:209 | of the magnitudes 3.1, 5.8, 5.8, 2.0, the peak row is index 1, not index 2 |
| Events.PeakRow | seismic_v4.py:346 | `df.iloc[df['Magnitude'].argmax()]` raises `KeyError` with no Magnitude column and `ValueError` with no rows. With the column and at least one row it never raises, and the row is the first peak row |
| Events.IsEmpty | seismic_v4.py:345 | `df.empty`: a table with no rows or no columns |
| Events.ShowMag | seismic_v4.py:210 | the printed magnitude reads back as exactly m hundredths. It starts with `-` iff m is negative, its integer part has no leading zero (0.5 prints as `0.5`), and it ends in 0 only as the single decimal of a whole value, as Python prints 5.0 but 2.5 rather than 2.50 |
| Events.DecimalsValue | seismic_v4.py:210 | the one or two printed decimals are digits that read back as the value's hundredths, and a second decimal is never 0 |
| Events.UnsignedMagReadsBack | seismic_v4.py:210 | a non-negative magnitude prints as digits, a point and its decimals, and reads back as itself |
| Feed.GetData | seismic_v4.py:260-275 | a failed request, a missing `features` key or any malformed feature gives the empty table, never a partial one. Otherwise there is one row per feature, in feed order: Time, Magnitude and Location from the properties, and Depth, Lat and Lon from coordinates 2, 1 and 0. The table has the six columns unless there were no features |
| Feed.Record | seismic_v4.py:266-273 | one well-formed feature as one six-field row |
| Feed.FromRecords | seismic_v4.py:274 | `pd.DataFrame(d)`: the rows in order, with the six columns unless there are none |
| Lumin.FirstKeyword | seismic_v4.py:211-212 | the keyword found occurs in the text and no earlier keyword of the table does; none is found iff no keyword occurs |
| Lumin.PeakMessage | seismic_v4.py:210 | the f-string of the "max" answer, with the magnitude as `Events.ShowMag` prints it; what it reports is stated by `Lumin.LuminReportsFirstPeak` |
| Lumin.CleanQuery | seismic_v4.py:213 | the cleaned question is the text with every "what is", then every "explain", then every "who is" removed, with only whitespace cut from its two ends, and it neither starts nor ends with whitespace |
| Lumin.LuminBrain | seismic_v4.py:205-214 | the four rules in priority order; what each rule answers is stated by the `Lumin.Lumin*` lemma rows |
| Lumin.LuminRaisesIff | seismic_v4.py:205-214 | the assistant raises iff the text is no greeting, contains "max", and the table lacks Magnitude, Location or rows |
| Lumin.LuminIgnoresCase | seismic_v4.py:206 | the answer depends only on the lower-cased question |
| Lumin.LuminGreets | seismic_v4.py:207 | "hi" or "hello", in any case, is answered by the greeting whatever else holds |
| Lumin.LuminReportsFirstPeak | seismic_v4.py:208-210 | a non-greeting containing "max" is answered with the magnitude and location of the first row of largest magnitude |
| Lumin.LuminMaxWithoutData | seismic_v4.py:208-210 | "max" on a table without rows, without Magnitude or without Location raises instead of answering |
| Lumin.LuminExplainsChart | seismic_v4.py:211-212 | with no greeting and no "max", the first keyword in table order (map, scan, frequency, time) that occurs selects its fixed explanation |
| Lumin.LuminAsksTheWeb | seismic_v4.py:213-214 | with no greeting, "max" or keyword, the answer is the lookup's answer to the cleaned question, passed unchanged |
| QueryExample.NoMaxOrMapInWhatIsMagnitude | seismic_v4.py:208 | "what is magnitude" contains none of "max", "map", "scan" |
| QueryExample.NoChartWordInWhatIsMagnitude | seismic_v4.py:211-212 | "what is magnitude" contains neither "frequency" nor "time" |
| QueryExample.WhatIsRemoved | seismic_v4.py:213 | removing "what is" from "what is magnitude" leaves " magnitude" |
| QueryExample.NoOtherFillerInMagnitude | seismic_v4.py:213 | removing "explain" and then "who is" leaves " magnitude" unchanged |
| QueryExample.LowerWhatIsMagnitude | seismic_v4.py:206 | "What is Magnitude" lower-cases to "what is magnitude" |
| QueryExample.StripMagnitude | seismic_v4.py:213 | stripping " magnitude" gives "magnitude" |
| LuminExamples.CleanWhatIsMagnitude | seismic_v4.py:213 | cleaning "what is magnitude" leaves "magnitude" |
| LuminExamples.NoKeywordInWhatIsMagnitude | seismic_v4.py:211-212 | no chart keyword occurs in "what is magnitude" |
| LuminExamples.WhatIsMagnitudeIsLookedUp | seismic_v4.py:205-214 | "What is Magnitude" is answered by looking up exactly "magnitude", whatever the table |
| LuminExamples.MapWordInExplainMap | seismic_v4.py:208 | "explain map" contains "map" but not "max" |
| LuminExamples.ExplainMapExample | seismic_v4.py:161-166 | "Explain Map" is answered with the Planetary Scan explanation of the keyword table |
| Speech.Sanitise | seismic_v4.py:218 | the `replace` chain of `speak`; what it guarantees is stated by `Speech.SanitiseIsSafe` and `Speech.SanitiseKeepsText` |
| Speech.StarRemovalKeepsHead | seismic_v4.py:218 | removing `**` from a text that does not start with `*` keeps its first character |
| Speech.StarRemovalLeavesNoPair | seismic_v4.py:218 | after removing every `**`, no two adjacent `*` remain |
| Speech.NoDoubleStarNoPair | seismic_v4.py:218 | a text without two adjacent `*` does not contain `**` |
| Speech.StarRemovalDropsOnlyStars | seismic_v4.py:218 | removing `**` deletes nothing but asterisks |
| Speech.SanitiseIsSafe | seismic_v4.py:218 | the spoken text has no double quote, no single quote, no newline and no `**` |
| Speech.SanitiseKeepsText | seismic_v4.py:218 | apart from asterisks, the spoken text is the input without quotes and with each newline replaced by one space |
| Users.ReadCell | seismic_v4.py:281 | reading a written field back: a field becomes NaN iff it is one of pandas' default NA spellings (blank, "NA", "null", "nan", …), and any other field comes back as its own text |
| Users.CellStr | seismic_v4.py:287 | `str()` of a read-back cell, NaN printing as "nan"; its use in the password comparison is stated by `Users.CheckLogin` and `Users.MissingFieldsReadBack` |
| Users.FindUser | seismic_v4.py:285-286 | finds the first row with the given name, and finds none iff no row has it; a name spelled as an NA token is never found, as its cells read back as NaN |
| Users.CheckLogin | seismic_v4.py:284-288 | login succeeds iff the first row with the name has a password that prints as the one given once read back (one spelled as an NA token prints as "nan"); it then returns that row's e-mail cell, NaN if spelled as an NA token, and otherwise none |
| Users.LoginReply | seismic_v4.py:283-288 | in login mode, `admin`/`admin123` always succeeds with `admin@system.com`; every other name and password is answered by `CheckLogin` |
| Users.RegisterThenLogin | seismic_v4.py:283-292 | after registering a fresh name that is not an NA spelling, logging in with the password as it reads back succeeds and returns the registered e-mail as it reads back |
| Users.MissingFieldsReadBack | seismic_v4.py:281-291 | a name registered with a password spelled as an NA token (blank, "NA", "null", …) logs in with "nan" and with nothing else, not even that password; an e-mail spelled as an NA token comes back as NaN |
| Users.NaPasswordRefused | seismic_v4.py:281-288 | a user registered with the password "NA" is refused when logging in with "NA" |
| Users.NaNameNeverLogsIn | seismic_v4.py:285 | a name spelled as an NA token never logs in through the table, and no e-mail is returned |
| Users.UserStore.constructor | seismic_v4.py:280 | a new user file has no rows |
| Users.UserStore.Auth | seismic_v4.py:278-292 | `admin`/`admin123` returns `(True, "admin@system.com")` in either mode with the table unchanged. Login leaves the table unchanged and answers as `CheckLogin`. Registering a taken name returns `(False, "Taken")` and changes nothing. Registering a fresh name appends exactly one row and returns `(True, "Success")`. Distinct names stay distinct |
| Dashboard.CanMail | seismic_v4.py:228 | the guard of `send_email` on a text address: non-empty and holding an `@` |
| Dashboard.Mail | seismic_v4.py:228 | a NaN address raises `TypeError`. Otherwise at most one e-mail is sent, with that report to that address, and one is sent iff the address is non-empty and contains `@` |
| Dashboard.AlertsSent | seismic_v4.py:348 | the number of alert e-mails in the outbox |
| Dashboard.NoAlertsSent | seismic_v4.py:348 | the count is at most the outbox's length, and it is zero iff no e-mail in the outbox is an alert |
| Dashboard.AlertsSentAppend | seismic_v4.py:348 | appending at most one e-mail adds one alert to the count iff it is an alert |
| Dashboard.AlertDecision | seismic_v4.py:345-349 | nothing fires on an empty table or with the flag set; what fires has the flag clear, a non-empty table, a magnitude of at least 5.0 and a Location column. A missing Magnitude column raises `KeyError('Magnitude')`; with the Magnitude column present the only exception is `KeyError('Location')`, and only when that column is missing |
| Dashboard.AlertReportsFirstPeak | seismic_v4.py:346-348 | the row an alert reports is the first row of largest magnitude |
| Dashboard.AlertFiresIff | seismic_v4.py:345-349 | with the flag clear, a non-empty table and both columns present, the check does not raise, and it fires iff some row reaches 5.0 |
| Dashboard.MissingLocationRaisesIff | seismic_v4.py:345-348 | with the flag clear, a non-empty table and a Magnitude column but no Location column, the check raises iff some row reaches 5.0, and it raises `KeyError('Location')` |
| Dashboard.QuietBelowThreshold | seismic_v4.py:347 | a table whose magnitudes are all below 5.0 never fires the alert |
| Dashboard.AlertPass | seismic_v4.py:345-350 | the alert block raises what the decision raises and does nothing when the decision does nothing. When it fires, it raises iff the e-mail cell is NaN. For a text address it sends exactly what `send_email` sends for the alert report of the peak row's magnitude and location (`Dashboard.Mail`): one e-mail iff the address is non-empty and contains `@`, none otherwise |
| Dashboard.LatchedAlertIsQuiet | seismic_v4.py:345 | once the latch is set the alert block does nothing, whatever the table |
| Dashboard.NanAddressNeverLatches | seismic_v4.py:345-349 | with a NaN e-mail cell and a table peaking at 5.0 or more, the alert block raises `TypeError` while the latch is clear, so the latch is never set |
| Dashboard.MissingMagnitudeRaises | seismic_v4.py:345-346 | a non-empty table without a Magnitude column raises `KeyError` in the alert block while the latch is clear |
| Dashboard.ChartsCheck | seismic_v4.py:390-423 | an empty table only shows a warning. A non-empty table makes the analytics tab raise iff it lacks one of the six columns the tab reads or has a negative magnitude, which the map refuses as a marker size. The error names a missing column, or is the marker-size error, raised only once the columns the map reads are all present |
| Dashboard.LinkedTableCharts | seismic_v4.py:373-401 | a table the sidebar upload accepts makes the analytics tab raise iff one of its magnitudes is negative, and then with the marker-size error |
| Dashboard.NegativeMagnitudeExample | seismic_v4.py:373-401 | an accepted table with one event of magnitude -0.5 makes the analytics tab raise the marker-size error |
| Dashboard.AfterUpload | seismic_v4.py:368-380 | the data source after the sidebar upload: a readable file with all six required columns replaces it, and anything else leaves it unchanged |
| Dashboard.Session.constructor | seismic_v4.py:298-302 | a new session is logged out with the flag clear, no upload, an empty transcript and nothing to speak |
| Dashboard.Session.ActiveTable | seismic_v4.py:337-342 | the table shown is the upload when there is one, else the live feed |
| Dashboard.Session.Login | seismic_v4.py:315-323 | login succeeds iff `auth` accepts, and then records the user and the e-mail cell `auth` returned before attempting the login e-mail. A NaN cell raises there with the session already logged in and nothing sent; otherwise at most the one login e-mail is sent. A refused login changes nothing; the user table is never changed |
| Dashboard.Session.Logout | seismic_v4.py:356-358 | only the login flag is cleared; the alert flag stays |
| Dashboard.Session.Upload | seismic_v4.py:368-380 | an upload becomes the data source only if it has all six required columns, and the page then shows "DATA LINK ESTABLISHED" followed by "CORRUPT FILE STREAM", because the `st.rerun()` exception is caught. A file with other columns shows the format error and an unreadable one the corrupt-stream error, with the source unchanged. The alert flag stays |
| Dashboard.Session.RestoreLiveFeed | seismic_v4.py:382-384 | the upload is dropped, so the live feed is shown again; the alert flag stays |
| Dashboard.Session.AdminOverride | seismic_v4.py:495-496 | the administrator's upload becomes the data source with no column check; an unreadable file raises and changes nothing |
| Dashboard.Session.EvaluateAlert | seismic_v4.py:337-350 | on the active table the alert block raises, does nothing, or fires, exactly as `AlertPass` says. Raising or doing nothing changes neither the flag nor the outbox; firing sets the flag and appends the e-mails sent. The invariant keeps the count of alert e-mails at most one |
| Dashboard.Session.Submit | seismic_v4.py:441-446 | the question is answered about the table the run started with. An empty question does nothing. Otherwise the question is appended to the transcript, then Lumin's answer, which also becomes the text to speak; if answering raises, only the question is appended |
| Dashboard.Session.FlushSpeech | seismic_v4.py:448-450 | a pending answer is spoken once, sanitised, and then cleared |
| Dashboard.Session.Tabs | seismic_v4.py:390-496 | the login and the user are untouched. If the analytics tab raises, the tabs raise that and change nothing. Otherwise a question is answered as `Session.Submit` states; any other action clears the pending speech and leaves the transcript alone. Only an override changes the data source: the administrator's readable file replaces it, an unreadable one raises, and anyone else's upload is ignored |
| Dashboard.Session.Respond | seismic_v4.py:354-496 | per action, with the alert flag and outbox untouched: "TERMINATE LINK" only logs out and "RESTORE LIVE FEED" only drops the upload, both ending the run; every other action first applies the sidebar upload (`Dashboard.AfterUpload`) and then does exactly what `Session.Tabs` states |
| Dashboard.Session.Run | seismic_v4.py:335-496 | when the alert block raises, the run raises that exception and changes nothing, so a blocked session stays blocked whatever the action. When the block does nothing, flag and outbox stay; when it fires, the flag is set and the outbox gains exactly the e-mails sent. After a block that did not raise, the page changes exactly as `Session.Respond` states for the action, on the table the run started with. The flag is never cleared, and only the administrator can override the data source |
| Dashboard.AdminSession | seismic_v4.py:315-321 | after the administrator logs in to a new session, the session is logged in as the administrator with the administrator's e-mail, the flag clear, no upload and no alert sent |
| Dashboard.AlertFiresOnce | seismic_v4.py:345-350 | for an administrator session over a table with a row of magnitude 5.0 or more, the first check fires, the second does not, and exactly one alert e-mail is sent |
| Dashboard.BlankEmailLogin | seismic_v4.py:281-321 | registering a name with a blank e-mail succeeds, and logging in with it then raises `TypeError` with the session already logged in |

## Left out

- HTTP: the USGS request and the Wikipedia lookup are left out. The feed is the decoded document or `None`, and the lookup is a function parameter. Caching of `get_data` for 300 seconds is left out.
- `datetime.fromtimestamp` on the feed's `time`: Time is kept as epoch milliseconds, because the conversion depends on the local time zone.
- SMTP delivery and the HTML of `send_email`: the model records the addressee and the payload in `outbox`. Delivery failures are swallowed by the code and change nothing else.
- The JavaScript speech injection (`components.html`): only the sanitised text is modelled.
- File I/O in `auth`: creating `users_hud.csv` and resetting a file without a `u` column (lines 279-282) are not modelled. The store starts empty.
- pandas type inference: names, passwords and e-mails are strings, except that a field spelled as one of pandas' default NA tokens reads back as NaN. A numeric-looking name or password that pandas would parse as a number (so that `u in df['u'].values` or `str(rec['p'])` compare differently) is not modelled. Neither is an e-mail column whose every non-NA entry looks numeric: it reads back as numbers, and `"@" not in` a number raises `TypeError` in `send_email` instead of skipping the mail. Nor is a column of "True"/"False" values, which reads back as booleans. Uploaded CSVs arrive as tables with typed values. The code performs no coercion of them, and neither does the model.
- Users.UserStore.Auth: the login path is called with the e-mail argument `""` where the code passes `None`. Login never uses that argument. The `mode` string is a two-valued type, because `"login"` logs in and every other value registers.
- Null fields in the feed: a feature whose `mag` or `place` is present but null does not fail in the code. It would give NaN or `None` in the table. The model counts such a feature as malformed.
- Events.ShowMag: assumes the magnitude column has float dtype (a whole-number CSV column would print `5`, not `5.0`) and at most two decimals.
- Text.Lower: lower-cases ASCII letters only; Python's `str.lower` also folds other alphabets.
- Streamlit re-execution: `Session.Run` is one run, triggered by one action. What `st.rerun` and widget state do across runs is not modelled. An uploader keeps its file, so every later run re-links it, which undoes "restore live feed" while the file stays there. The override uploader keeps its file too, so line 496 runs and calls `st.rerun()` again on every later run. The login page's `st.rerun()` and the toast are not modelled either.
- Display-only parts: charts, metrics, `describe()` statistics, mean depth with `int` truncation, the user-table view for the administrator, CSS and layout. They are floating-point or presentation only. Of the analytics tab the model keeps only which columns it reads, because a missing one raises, and the marker-size check on the magnitudes (`Dashboard.ChartsCheck`).
- Dashboard.ChartsCheck: when several columns are missing, the column named in the error follows the order in which the tab first reads them. Plotly's own order of checking its arguments is not modelled. Magnitudes are whole hundredths, so a NaN magnitude in an uploaded CSV, which plotly also refuses as a marker size, is not modelled; neither is a NaN mean depth.
- The "neural lab" demo (lines 462-468): random numbers and floating-point curves.
