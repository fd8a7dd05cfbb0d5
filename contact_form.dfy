/** The decision logic of the contact form's validating submit handler
    (`setupContactForm` in script.js): trimming the fields, rejecting a
    submission with a blank required field, building the JSON payload, and
    classifying the parsed server reply. The request itself, JSON parsing,
    the alerts and `form.reset()` are outside the model. */
module ContactForm {

  import opened Wrappers

  /** The code points `String.prototype.trim` strips: the ECMAScript
      WhiteSpace set (TAB, VT, FF, SP, NBSP, ZWNBSP and the Unicode space
      separators, category Zs) and the LineTerminator set (LF, CR, LS, PS). */
  predicate IsSpace(c: char)
    ensures c == ' ' || c == '\t' || c == '\n' || c == '\r' || c == '\U{00A0}' ==> IsSpace(c)
    ensures c == '\U{0085}' || c == '\U{180E}' || c == '\U{200B}' || c == '\U{200C}' || c == '\U{200D}' ==> !IsSpace(c)
  {
    || c == '\t' || c == '\U{000B}' || c == '\U{000C}' || c == ' '
    || c == '\n' || c == '\r' || c == '\U{2028}' || c == '\U{2029}'
    || c == '\U{00A0}' || c == '\U{FEFF}' || c == '\U{1680}'
    || ('\U{2000}' <= c <= '\U{200A}')
    || c == '\U{202F}' || c == '\U{205F}' || c == '\U{3000}'
  }

  /** A field that is empty once trimmed: every character is whitespace. */
  predicate Blank(s: string)
  {
    forall k :: 0 <= k < |s| ==> IsSpace(s[k])
  }

  /** The length of the whitespace prefix of `s`. */
  function LeadingSpace(s: string): (n: nat)
    ensures n <= |s|
    ensures forall k :: 0 <= k < n ==> IsSpace(s[k])
    ensures n < |s| ==> !IsSpace(s[n])
  {
    if s != [] && IsSpace(s[0]) then 1 + LeadingSpace(s[1..]) else 0
  }

  /** The length of the whitespace suffix of `s`. */
  function TrailingSpace(s: string): (n: nat)
    ensures n <= |s|
    ensures forall k :: |s| - n <= k < |s| ==> IsSpace(s[k])
    ensures n < |s| ==> !IsSpace(s[|s| - 1 - n])
  {
    if s != [] && IsSpace(s[|s| - 1]) then 1 + TrailingSpace(s[..|s| - 1]) else 0
  }

  /** `s.trim()`: the longest slice of `s` that neither starts nor ends with
      whitespace, everything around it being whitespace. */
  function Trim(s: string): (r: string)
    ensures LeadingSpace(s) + |r| <= |s|
    ensures r == s[LeadingSpace(s)..LeadingSpace(s) + |r|]
    ensures forall k :: 0 <= k < |s| && !(LeadingSpace(s) <= k < LeadingSpace(s) + |r|) ==> IsSpace(s[k])
    ensures r != [] ==> !IsSpace(r[0]) && !IsSpace(r[|r| - 1])
    ensures r == [] <==> Blank(s)
  {
    var t := s[LeadingSpace(s)..];
    t[..|t| - TrailingSpace(t)]
  }

  /** Trimming a trimmed string changes nothing. */
  lemma TrimIdempotent(s: string)
    ensures Trim(Trim(s)) == Trim(s)
  {
    var r := Trim(s);
    assert LeadingSpace(r) == 0;
    var t := r[LeadingSpace(r)..];
    assert t == r;
    assert TrailingSpace(t) == 0;
  }

  /** A string without whitespace at either end is its own trim. */
  lemma TrimKeepsInner(s: string)
    requires s != [] && !IsSpace(s[0]) && !IsSpace(s[|s| - 1])
    ensures Trim(s) == s
  {
    assert LeadingSpace(s) == 0;
    assert s[LeadingSpace(s)..] == s;
    assert TrailingSpace(s) == 0;
  }

  /** The values read from the form at submit time. */
  datatype Fields = Fields(name: string, email: string, phone: string, practice: string, message: string)

  /** What the handler does with a submission: refuse it locally with an
      alert, or POST the JSON body `{name, email, phone, practice, message}`. */
  datatype Submission = Rejected(alert: string) | Post(body: Fields)

  const MissingFieldsAlert := "Please fill name, email and message."

  /** The validating submit handler up to the request: name, email, phone and
      message are trimmed, practice is sent as it is, and the submission is
      refused, with no request, iff name, email or message is blank. */
  function Submit(f: Fields): (r: Submission)
    ensures r.Rejected? <==> Blank(f.name) || Blank(f.email) || Blank(f.message)
    ensures r.Rejected? ==> r.alert == MissingFieldsAlert
    ensures r.Post? ==> r.body == Fields(Trim(f.name), Trim(f.email), Trim(f.phone), f.practice, Trim(f.message))
    ensures r.Post? ==> r.body.name != [] && r.body.email != [] && r.body.message != []
  {
    var name, email, phone, message := Trim(f.name), Trim(f.email), Trim(f.phone), Trim(f.message);
    if name == [] || email == [] || message == [] then
      Rejected(MissingFieldsAlert)
    else
      Post(Fields(name, email, phone, f.practice, message))
  }

  /** Surrounding whitespace never changes the verdict or the payload:
      submitting the already-trimmed fields gives the same outcome. */
  lemma SubmitIgnoresSurroundingSpace(f: Fields)
    ensures Submit(Fields(Trim(f.name), Trim(f.email), Trim(f.phone), f.practice, Trim(f.message))) == Submit(f)
  {
    TrimIdempotent(f.name);
    TrimIdempotent(f.email);
    TrimIdempotent(f.phone);
    TrimIdempotent(f.message);
  }

  /** The parsed reply: `res.ok`, `data.success`, and `data.error` if any. */
  datatype Reply = Reply(httpOk: bool, success: bool, error: Option<string>)

  /** How the handler reports a reply: success (alert and form reset) or an
      alert carrying an error message. */
  datatype Verdict = Delivered | Failed(alert: string)

  const ServerErrorFallback := "Server error"

  /** `data.error || 'Server error'`: an absent or empty error (both falsy
      in JavaScript) falls back to the generic text. */
  function ErrorText(error: Option<string>): (t: string)
    ensures t != []
    ensures error.Some? && error.value != [] ==> t == error.value
    ensures error.None? || error.value == [] ==> t == ServerErrorFallback
  {
    match error
    case Some(e) => if e != [] then e else ServerErrorFallback
    case None => ServerErrorFallback
  }

  /** The reply is a success iff the HTTP status is ok and the body says
      success; otherwise the alert is "Error: " followed by the server's
      error text, or by the fallback when there is none. */
  function Classify(reply: Reply): (v: Verdict)
    ensures v.Delivered? <==> reply.httpOk && reply.success
    ensures v.Failed? ==> v.alert == "Error: " + ErrorText(reply.error)
    ensures v.Failed? ==> |v.alert| > |"Error: "| && v.alert[..|"Error: "|] == "Error: "
  {
    if reply.httpOk && reply.success then Delivered else Failed("Error: " + ErrorText(reply.error))
  }

  /** A server-reported `{success: false, error: "bad email"}` is shown as
      exactly that text after the prefix, whatever the HTTP status. */
  lemma ServerErrorShownVerbatim(httpOk: bool, e: string)
    requires e != []
    ensures Classify(Reply(httpOk, false, Some(e))) == Failed("Error: " + e)
  {
  }
}
