/** The contact endpoint (`send_contact`, backend/routes/contact.py lines
    20-80): validation of the submitted form, reading the mail configuration
    from the environment, composing the notification mail, and the JSON
    answer with its HTTP status. The mail server's verdict is a parameter. */
module Contact {
  import opened Wrappers
  import opened Text

  /** The posted JSON object: a missing field reads as the empty string. */
  datatype Form = Form(name: Option<string>, email: Option<string>, message: Option<string>)

  /** The environment variables the handler reads. */
  datatype Env = Env(
    contactEmail: Option<string>,
    smtpServer: Option<string>,
    smtpPort: Option<string>,
    smtpUser: Option<string>,
    smtpPass: Option<string>)

  /** The notification mail. */
  datatype Mail = Mail(sender: string, recipient: string, subject: string, body: string)

  /** What is handed to the mail server: where, as whom, and what. */
  datatype Delivery = Delivery(server: string, port: int, user: string, password: string, mail: Mail)

  /** The HTTP status and JSON body of the answer: `{"success": true,
      "message": text}` or `{"error": text}`. */
  datatype Response = Response(status: nat, success: bool, text: string)

  /** The answer together with the delivery attempted, if any. */
  datatype Outcome = Outcome(response: Response, attempted: Option<Delivery>)

  const RequiredError: string := "All fields are required"
  const EmailError: string := "Invalid email address"
  const LengthError: string := "Message too long"
  const FailureError: string := "Failed to send message. Please try again later."
  const UnconfiguredText: string := "Message received (not configured for email)"
  const SentText: string := "Message sent successfully"
  const MaxMessage: nat := 5000
  const DefaultPort: int := 587
  /** CPython's default limit on the digits `int()` converts from a decimal
      string (`sys.get_int_max_str_digits()`). */
  const MaxIntDigits: nat := 4300

  // ---------------------------------------------------------------------
  // Validation

  /** `data.get(field, "").strip()`. */
  function Field(v: Option<string>): (r: string)
    ensures r == [] <==> v.None? || AllSpace(Python, v.value)
  {
    if v.Some? then
      TrimEmptyIff(Python, v.value);
      Trim(Python, v.value)
    else ""
  }

  /** The three stripped fields. */
  datatype Fields = Fields(name: string, email: string, message: string)

  /** The checks in the handler's order; the first that fails decides the
      error. */
  function Validate(form: Form): (r: Result)
  {
    var f := Fields(Field(form.name), Field(form.email), Field(form.message));
    if f.name == [] || f.email == [] || f.message == [] then Reject(RequiredError)
    else if '@' !in f.email then Reject(EmailError)
    else if |f.message| > MaxMessage then Reject(LengthError)
    else Accept(f)
  }

  datatype Result = Accept(fields: Fields) | Reject(error: string)

  /** A form is refused as incomplete exactly when a field is missing or
      only whitespace. */
  lemma RequiredIff(form: Form)
    ensures Validate(form) == Reject(RequiredError) <==>
      Blank(form.name) || Blank(form.email) || Blank(form.message)
  {
  }

  predicate Blank(v: Option<string>) {
    v.None? || AllSpace(Python, v.value)
  }

  /** Stripping never removes an '@', so the address check sees the same
      answer as the raw field would. */
  lemma AtSurvivesStrip(s: string)
    ensures '@' in Trim(Python, s) <==> '@' in s
  {
    AtSurvivesTrimStart(s);
    AtSurvivesTrimEnd(TrimStart(Python, s));
  }

  lemma AtSurvivesTrimStart(s: string)
    ensures '@' in TrimStart(Python, s) <==> '@' in s
  {
    var r := TrimStart(Python, s);
    var d := |s| - |r|;
    Rejoin(s, d);
    NoAtInSpace(s[..d]);
  }

  /** Whitespace holds no '@'. */
  lemma NoAtInSpace(p: string)
    requires AllSpace(Python, p)
    ensures '@' !in p
  {
    assert forall i :: 0 <= i < |p| ==> p[i] != '@';
  }

  lemma AtSurvivesTrimEnd(s: string)
    ensures '@' in TrimEnd(Python, s) <==> '@' in s
  {
    var r := TrimEnd(Python, s);
    Rejoin(s, |r|);
    NoAtInSpace(s[|r|..]);
  }

  /** A complete form is refused for its address exactly when the address
      has no '@'. */
  lemma EmailIff(form: Form)
    requires !Blank(form.name) && !Blank(form.email) && !Blank(form.message)
    ensures Validate(form) == Reject(EmailError) <==> '@' !in form.email.value
  {
    AtSurvivesStrip(form.email.value);
  }

  /** A complete form with an '@' in the address is refused for its
      length exactly when the stripped message is longer than 5000
      characters; 5000 is still accepted. */
  lemma LengthIff(form: Form)
    requires !Blank(form.name) && !Blank(form.email) && !Blank(form.message)
    requires '@' in form.email.value
    ensures Validate(form) == Reject(LengthError) <==> |Field(form.message)| > MaxMessage
    ensures Validate(form).Accept? <==> |Field(form.message)| <= MaxMessage
  {
    AtSurvivesStrip(form.email.value);
  }

  /** An accepted form carries the stripped fields: non-empty, without
      surrounding whitespace, an '@' in the address, at most 5000
      characters of message. */
  lemma AcceptedFields(form: Form)
    requires Validate(form).Accept?
    ensures var f := Validate(form).fields;
      f.name != [] && f.email != [] && f.message != []
      && Trim(Python, f.name) == f.name && Trim(Python, f.email) == f.email
      && Trim(Python, f.message) == f.message
      && '@' in f.email && |f.message| <= MaxMessage
  {
    var f := Validate(form).fields;
    assert f == Fields(Field(form.name), Field(form.email), Field(form.message));
    FieldTrimmed(form.name);
    FieldTrimmed(form.email);
    FieldTrimmed(form.message);
  }

  /** A stripped field is already stripped. */
  lemma FieldTrimmed(v: Option<string>)
    ensures Trim(Python, Field(v)) == Field(v)
  {
    if v.Some? {
      TrimIdempotent(Python, v.value);
    }
  }

  // ---------------------------------------------------------------------
  // `int(os.getenv("SMTP_PORT", 587))`

  predicate IsDigit(c: char) {
    '0' <= c <= '9'
  }

  /** Decimal digits with single underscores between them, as Python's
      `int()` accepts in base 10. */
  predicate DigitGroups(s: string) {
    s != [] && IsDigit(s[0]) && IsDigit(s[|s| - 1])
    && (forall i :: 0 <= i < |s| ==> IsDigit(s[i]) || s[i] == '_')
    && (forall i :: 0 <= i < |s| - 1 ==> !(s[i] == '_' && s[i + 1] == '_'))
  }

  /** The value of a run of digits and underscores, underscores skipped. */
  function DigitsValue(s: string): (n: nat)
  {
    if s == [] then 0
    else
      var c := s[|s| - 1];
      if IsDigit(c) then DigitsValue(s[..|s| - 1]) * 10 + (c as int - '0' as int)
      else DigitsValue(s[..|s| - 1])
  }

  /** How many digits a run of digits and underscores holds. */
  function DigitCount(s: string): (n: nat)
    ensures n <= |s|
  {
    if s == [] then 0
    else DigitCount(s[..|s| - 1]) + (if IsDigit(s[|s| - 1]) then 1 else 0)
  }

  /** Digit groups that `int()` converts: at most `MaxIntDigits` digits,
      underscores not counted; a longer numeral raises `ValueError`. */
  predicate Numeral(s: string) {
    DigitGroups(s) && DigitCount(s) <= MaxIntDigits
  }

  /** `int(text)`: surrounding whitespace (as `int()` counts it), an
      optional sign, digit groups; anything else raises, modelled as `None`. */
  function ParseInt(text: string): (r: Option<int>)
  {
    ParseSigned(Trim(PythonInt, text))
  }

  /** An optional sign followed by a numeral. */
  function ParseSigned(t: string): (r: Option<int>)
  {
    if t != [] && (t[0] == '-' || t[0] == '+') then
      var digits := t[1..];
      if Numeral(digits) then
        Some(if t[0] == '-' then -(DigitsValue(digits) as int) else DigitsValue(digits))
      else None
    else if Numeral(t) then Some(DigitsValue(t))
    else None
  }

  /** The configured port: 587 when the variable is unset. */
  function Port(raw: Option<string>): (r: Option<int>)
    ensures raw.None? ==> r == Some(DefaultPort)
  {
    if raw.None? then Some(DefaultPort) else ParseInt(raw.value)
  }

  lemma DigitValue(d: nat)
    requires d < 10
    ensures Digit(d) as int - '0' as int == d
  {
  }

  /** Parsing a decimal rendering gives the number back. */
  lemma {:induction false} DigitsValueOfRendering(n: nat)
    ensures DigitsValue(NatToString(n)) == n
    ensures DigitGroups(NatToString(n))
    ensures DigitCount(NatToString(n)) == |NatToString(n)|
  {
    var r := NatToString(n);
    if n < 10 {
      DigitValue(n);
    } else {
      DigitsValueOfRendering(n / 10);
      DigitValue(n % 10);
      assert r[..|r| - 1] == NatToString(n / 10);
    }
  }

  /** `int()` reads back what a decimal rendering of at most `MaxIntDigits`
      digits wrote, whatever whitespace `int()` skips surrounds it. */
  lemma ParseIntRoundTrip(n: nat, before: string, after: string)
    requires AllSpace(PythonInt, before) && AllSpace(PythonInt, after)
    requires |NatToString(n)| <= MaxIntDigits
    ensures ParseInt(before + NatToString(n) + after) == Some(n)
  {
    var core := NatToString(n);
    DigitsValueOfRendering(n);
    ParseUnsigned(core);
    TrimAround(before, core, after);
  }

  lemma ParseUnsigned(t: string)
    requires Numeral(t)
    ensures ParseSigned(t) == Some(DigitsValue(t))
    ensures !IsSpace(PythonInt, t[0]) && !IsSpace(PythonInt, t[|t| - 1])
  {
  }

  /** The same with a minus sign in front of the digits. */
  lemma ParseIntNegativeRoundTrip(n: nat, before: string, after: string)
    requires AllSpace(PythonInt, before) && AllSpace(PythonInt, after)
    requires |NatToString(n)| <= MaxIntDigits
    ensures ParseInt(before + ("-" + NatToString(n)) + after) == Some(-(n as int))
  {
    var core := "-" + NatToString(n);
    DigitsValueOfRendering(n);
    assert core[1..] == NatToString(n);
    assert IsDigit(core[|core| - 1]);
    TrimAround(before, core, after);
  }

  /** A rendering of more than `MaxIntDigits` digits does not parse, with or
      without a minus sign and whatever whitespace surrounds it. */
  lemma ParseIntRefusesLong(n: nat, before: string, after: string)
    requires AllSpace(PythonInt, before) && AllSpace(PythonInt, after)
    requires |NatToString(n)| > MaxIntDigits
    ensures ParseInt(before + NatToString(n) + after) == None
    ensures ParseInt(before + ("-" + NatToString(n)) + after) == None
  {
    var core := NatToString(n);
    DigitsValueOfRendering(n);
    TooManyDigits(core);
    TrimAround(before, core, after);
    TrimAround(before, "-" + core, after);
  }

  /** Digit groups past the limit parse neither bare nor after a minus sign. */
  lemma TooManyDigits(core: string)
    requires DigitGroups(core) && DigitCount(core) > MaxIntDigits
    ensures ParseSigned(core) == None && ParseSigned("-" + core) == None
    ensures !IsSpace(PythonInt, core[0]) && !IsSpace(PythonInt, core[|core| - 1])
    ensures var signed := "-" + core; !IsSpace(PythonInt, signed[0]) && !IsSpace(PythonInt, signed[|signed| - 1])
  {
    assert ("-" + core)[1..] == core;
  }

  /** The information separators U+001C to U+001F count as whitespace for
      `str.strip()` but not for `int()`: a port written with one of them
      before or after the number does not parse. */
  lemma ParseIntRejectsSeparators(c: char, s: string)
    requires '\U{1C}' <= c <= '\U{1F}'
    ensures ParseInt([c] + s) == None
    ensures ParseInt(s + [c]) == None
  {
    assert !IsSpace(PythonInt, c) && !IsDigit(c);
    var front := [c] + s;
    FrontSurvives(front);
    SignedNeedsDigitStart(Trim(PythonInt, front));
    var back := s + [c];
    BackSurvives(back);
    SignedNeedsDigitEnd(Trim(PythonInt, back));
  }

  /** A first character that is not whitespace survives the trim. */
  lemma FrontSurvives(s: string)
    requires s != [] && !IsSpace(PythonInt, s[0])
    ensures var t := Trim(PythonInt, s); t != [] && t[0] == s[0]
  {
    assert TrimStart(PythonInt, s) == s;
  }

  /** A last character that is not whitespace survives the trim. */
  lemma BackSurvives(s: string)
    requires s != [] && !IsSpace(PythonInt, s[|s| - 1])
    ensures var t := Trim(PythonInt, s); t != [] && t[|t| - 1] == s[|s| - 1]
  {
    var u := TrimStart(PythonInt, s);
    assert u != [] && u[|u| - 1] == s[|s| - 1];
  }

  /** Neither a signed nor an unsigned number starts with anything but a
      sign or a digit. */
  lemma SignedNeedsDigitStart(t: string)
    requires t != [] && !IsDigit(t[0]) && t[0] != '-' && t[0] != '+'
    ensures ParseSigned(t) == None
  {
  }

  /** Neither a signed nor an unsigned number ends in a non-digit. */
  lemma SignedNeedsDigitEnd(t: string)
    requires t != [] && !IsDigit(t[|t| - 1])
    ensures ParseSigned(t) == None
  {
    if t[0] == '-' || t[0] == '+' {
      var digits := t[1..];
      assert digits == [] || digits[|digits| - 1] == t[|t| - 1];
    }
  }

  /** Stripping removes exactly the whitespace around a core that neither
      starts nor ends with whitespace. */
  lemma TrimAround(before: string, core: string, after: string)
    requires AllSpace(PythonInt, before) && AllSpace(PythonInt, after)
    requires core != [] && !IsSpace(PythonInt, core[0]) && !IsSpace(PythonInt, core[|core| - 1])
    ensures Trim(PythonInt, before + core + after) == core
  {
    TrimStartPast(before, core + after);
    assert (before + core) + after == before + (core + after);
    TrimEndPast(core, after);
  }

  lemma {:induction false} TrimStartPast(gap: string, rest: string)
    requires AllSpace(PythonInt, gap) && rest != [] && !IsSpace(PythonInt, rest[0])
    ensures TrimStart(PythonInt, gap + rest) == rest
  {
    if gap != [] {
      assert (gap + rest)[1..] == gap[1..] + rest;
      TrimStartPast(gap[1..], rest);
    }
  }

  lemma {:induction false} TrimEndPast(core: string, gap: string)
    requires AllSpace(PythonInt, gap) && core != [] && !IsSpace(PythonInt, core[|core| - 1])
    ensures TrimEnd(PythonInt, core + gap) == core
  {
    if gap != [] {
      var g := gap[..|gap| - 1];
      assert (core + gap)[..|core + gap| - 1] == core + g;
      TrimEndPast(core, g);
    }
  }

  // ---------------------------------------------------------------------
  // The mail

  function Subject(name: string): string {
    "Contact Form: Message from " + name
  }

  /** The plain-text body, with the template's indentation. */
  function Body(name: string, email: string, message: string): string {
    "\n        New contact form submission from Greanium OS:\n        \n        Name: " + name
    + "\n        Email: " + email
    + "\n        \n        Message:\n        " + message
    + "\n        "
  }

  /** The body carries the three fields in order: name, then address, then
      message. */
  lemma BodyCarriesFields(name: string, email: string, message: string)
    ensures var b := Body(name, email, message);
      var i := 78; var j := i + |name| + 16; var k := j + |email| + 35;
      k + |message| <= |b|
      && b[i..i + |name|] == name && b[j..j + |email|] == email && b[k..k + |message|] == message
  {
    var b := Body(name, email, message);
    var p := "\n        New contact form submission from Greanium OS:\n        \n        Name: ";
    var q := "\n        Email: ";
    var u := "\n        \n        Message:\n        ";
    assert |p| == 78 && |q| == 16 && |u| == 35;
    assert b == p + name + q + email + u + message + "\n        ";
  }

  /** The variables that must be set and non-empty for mail to be sent. */
  predicate Configured(env: Env) {
    Present(env.contactEmail) && Present(env.smtpServer)
    && Present(env.smtpUser) && Present(env.smtpPass)
  }

  predicate Present(v: Option<string>) {
    v.Some? && v.value != []
  }

  // ---------------------------------------------------------------------
  // The handler

  /** `send_contact`: validation first (400), then the port is read (an
      unreadable one raises and gives 500), then an unconfigured server
      answers success without mail, and otherwise the mail is handed to the
      server, whose verdict `delivered` decides between success and 500. */
  function SendContact(form: Form, env: Env, delivered: bool): (o: Outcome)
    ensures o.response.status in {200, 400, 500}
    ensures o.response.success <==> o.response.status == 200
    ensures o.attempted.Some? ==> o.response.status != 400
  {
    match Validate(form)
    case Reject(e) => Outcome(Response(400, false, e), None)
    case Accept(f) =>
      var port := Port(env.smtpPort);
      if port.None? then Outcome(Response(500, false, FailureError), None)
      else if !Configured(env) then Outcome(Response(200, true, UnconfiguredText), None)
      else
        var user := env.smtpUser.value;
        var mail := Mail(user, env.contactEmail.value, Subject(f.name), Body(f.name, f.email, f.message));
        var d := Delivery(env.smtpServer.value, port.value, user, env.smtpPass.value, mail);
        if delivered then Outcome(Response(200, true, SentText), Some(d))
        else Outcome(Response(500, false, FailureError), Some(d))
  }

  /** A refused form is answered 400 with the validation error and nothing
      is sent, whatever the configuration. */
  lemma RejectedNeverSends(form: Form, env: Env, delivered: bool)
    requires Validate(form).Reject?
    ensures SendContact(form, env, delivered) == Outcome(Response(400, false, Validate(form).error), None)
  {
  }

  /** The port is read before the configuration is checked: an unreadable
      `SMTP_PORT` fails an accepted form with 500 even when mail is not
      configured at all. */
  lemma BadPortFails(form: Form, env: Env, delivered: bool)
    requires Validate(form).Accept? && env.smtpPort.Some? && ParseInt(env.smtpPort.value).None?
    ensures SendContact(form, env, delivered) == Outcome(Response(500, false, FailureError), None)
  {
  }

  /** Without configuration an accepted form is acknowledged and nothing is
      sent. */
  lemma UnconfiguredAcknowledges(form: Form, env: Env, delivered: bool)
    requires Validate(form).Accept? && Port(env.smtpPort).Some? && !Configured(env)
    ensures SendContact(form, env, delivered) == Outcome(Response(200, true, UnconfiguredText), None)
  {
  }

  /** With configuration an accepted form is mailed from the SMTP user to
      the contact address, with the sender's name in the subject and the
      fields in the body; the answer is success exactly when the server
      accepted it. */
  lemma ConfiguredSends(form: Form, env: Env, delivered: bool)
    requires Validate(form).Accept? && Port(env.smtpPort).Some? && Configured(env)
    ensures var o := SendContact(form, env, delivered); var f := Validate(form).fields;
      o.attempted.Some?
      && o.attempted.value.port == Port(env.smtpPort).value
      && o.attempted.value.mail.sender == env.smtpUser.value
      && o.attempted.value.mail.recipient == env.contactEmail.value
      && o.attempted.value.mail.subject == "Contact Form: Message from " + f.name
      && o.attempted.value.mail.body == Body(f.name, f.email, f.message)
      && (o.response.status == 200 <==> delivered)
      && o.response.text == (if delivered then SentText else FailureError)
  {
  }

  /** Mail is attempted exactly for accepted forms with a readable port and
      a complete configuration. */
  lemma AttemptIff(form: Form, env: Env, delivered: bool)
    ensures SendContact(form, env, delivered).attempted.Some? <==>
      Validate(form).Accept? && Port(env.smtpPort).Some? && Configured(env)
  {
  }
}
