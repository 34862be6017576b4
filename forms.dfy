/** Form handling of the page: the generic required-field check every `<form>` gets
    (script.js and script_fixed.js carry the same handler), the message-in-a-bottle
    submit check with its e-mail pattern, the contact page's submit check, and the
    two character-counter colour rules. */
module Forms {
  import opened Wrappers
  import opened Text

  // ---------------------------------------------------------------------------
  // Required-field validation

  const ERROR_CLASS := "border-red-500"
  const SUCCESS_CLASS := "bg-green-500"
  const SENT_LABEL := "Message Sent!"

  /** An `<input>` or `<textarea>` of the form. */
  datatype Field = Field(value: string, defaultValue: string, required: bool, classes: set<string>)

  /** `!input.value.trim()`. */
  predicate IsBlank(value: string) {
    Trim(value) == ""
  }

  /** The form is accepted when no required field is blank. */
  predicate AllRequiredFilled(fields: seq<Field>) {
    forall i :: 0 <= i < |fields| ==> fields[i].required ==> !IsBlank(fields[i].value)
  }

  /** The check over one more control. */
  lemma AllRequiredFilledSnoc(fields: seq<Field>, f: Field)
    ensures AllRequiredFilled(fields + [f]) <==> AllRequiredFilled(fields) && (f.required ==> !IsBlank(f.value))
  {
    var all := fields + [f];
    assert all[|fields|] == f;
    assert forall i :: 0 <= i < |fields| ==> all[i] == fields[i];
  }

  /** The class list a field has after the check: a blank required field gains the
      error class, a filled one loses it, a field that is not required is untouched. */
  function Marked(f: Field): (g: Field)
    ensures g.value == f.value && g.defaultValue == f.defaultValue && g.required == f.required
    ensures g.classes - {ERROR_CLASS} == f.classes - {ERROR_CLASS}
    ensures f.required ==> (ERROR_CLASS in g.classes <==> AllWhitespace(f.value))
    ensures !f.required ==> g == f
  {
    TrimEmptyIffBlank(f.value);
    if !f.required then f
    else if IsBlank(f.value) then f.(classes := f.classes + {ERROR_CLASS})
    else f.(classes := f.classes - {ERROR_CLASS})
  }

  /** `form.reset()`: every control returns to its default value; classes stay. */
  function ResetField(f: Field): (g: Field)
    ensures g.value == f.defaultValue && g.classes == f.classes
  {
    f.(value := f.defaultValue)
  }

  /** A submitted form that fails the check has at least one required field that
      is blank or whitespace only, and that field shows the error class. (Which
      fields carry the class is `Marked`'s contract.) */
  lemma RejectedFormMarksBlankFields(fields: seq<Field>)
    requires !AllRequiredFilled(fields)
    ensures exists i :: 0 <= i < |fields| && fields[i].required && AllWhitespace(fields[i].value)
                        && ERROR_CLASS in Marked(fields[i]).classes
  {
    var i :| 0 <= i < |fields| && fields[i].required && IsBlank(fields[i].value);
    TrimEmptyIffBlank(fields[i].value);
  }

  /** Checking a second time without editing changes nothing more. */
  lemma MarkedIdempotent(f: Field)
    ensures Marked(Marked(f)) == Marked(f)
  {
  }

  /** A `<form>` element with its controls and its submit button. */
  class Form {
    var fields: seq<Field>
    /** The form has a `button[type="submit"]`; without one the handler throws on
        `button.textContent` after marking the fields. */
    const hasSubmit: bool
    var submitLabel: string
    var submitClasses: set<string>

    constructor (fields: seq<Field>, hasSubmit: bool, caption: string)
      ensures this.fields == fields && this.hasSubmit == hasSubmit
      ensures submitLabel == caption && submitClasses == {}
    {
      this.fields := fields;
      this.hasSubmit := hasSubmit;
      submitLabel := caption;
      submitClasses := {};
    }

    /** The submit listener: mark every required control, then, when all are filled,
        show the success caption and reset the form. */
    method Submit() returns (valid: bool)
      modifies this
      ensures valid == AllRequiredFilled(old(fields))
      ensures |fields| == |old(fields)|
      ensures forall i :: 0 <= i < |fields| ==>
                fields[i] == if valid && hasSubmit then ResetField(Marked(old(fields)[i])) else Marked(old(fields)[i])
      ensures valid && hasSubmit ==> submitLabel == SENT_LABEL && submitClasses == old(submitClasses) + {SUCCESS_CLASS}
      ensures !(valid && hasSubmit) ==> submitLabel == old(submitLabel) && submitClasses == old(submitClasses)
    {
      valid := MarkRequired();
      if valid && hasSubmit {
        submitLabel := SENT_LABEL;
        submitClasses := submitClasses + {SUCCESS_CLASS};
        Reset();
      }
    }

    /** The `inputs.forEach` loop over the required controls. */
    method MarkRequired() returns (valid: bool)
      modifies this`fields
      ensures valid == AllRequiredFilled(old(fields))
      ensures |fields| == |old(fields)|
      ensures forall i :: 0 <= i < |fields| ==> fields[i] == Marked(old(fields)[i])
    {
      var before := fields;
      var marked: seq<Field> := [];
      valid := true;
      for i := 0 to |before|
        invariant |marked| == i
        invariant forall j :: 0 <= j < i ==> marked[j] == Marked(before[j])
        invariant valid <==> forall j :: 0 <= j < i ==> before[j].required ==> !IsBlank(before[j].value)
      {
        var f := before[i];
        if f.required {
          if IsBlank(f.value) {
            valid := false;
            f := f.(classes := f.classes + {ERROR_CLASS});
          } else {
            f := f.(classes := f.classes - {ERROR_CLASS});
          }
        }
        assert f == Marked(before[i]);
        marked := marked + [f];
      }
      fields := marked;
    }

    /** `this.reset()`. */
    method Reset()
      modifies this`fields
      ensures |fields| == |old(fields)|
      ensures forall i :: 0 <= i < |fields| ==> fields[i] == ResetField(old(fields)[i])
    {
      ghost var before := fields;
      var k := 0;
      while k < |fields|
        invariant 0 <= k <= |fields| == |before|
        invariant forall j :: 0 <= j < k ==> fields[j] == ResetField(before[j])
        invariant forall j :: k <= j < |fields| ==> fields[j] == before[j]
      {
        fields := fields[k := ResetField(fields[k])];
        k := k + 1;
      }
    }
  }

  // ---------------------------------------------------------------------------
  // The e-mail pattern /^[^\s@]+@[^\s@]+\.[^\s@]+$/

  /** A character of the class `[^\s@]`. */
  predicate IsAddressChar(c: char) {
    c != '@' && !IsJsWhitespace(c)
  }

  predicate AllAddressChars(s: string) {
    forall i :: 0 <= i < |s| ==> IsAddressChar(s[i])
  }

  /** The regular expression matches `s` with its `@` at `at` and the `\.` at `dot`. */
  ghost predicate MatchesAt(s: string, at: int, dot: int) {
    && 0 < at && at + 1 < dot && dot + 1 < |s|
    && s[at] == '@' && s[dot] == '.'
    && AllAddressChars(s[..at]) && AllAddressChars(s[at + 1..dot]) && AllAddressChars(s[dot + 1..])
  }

  /** The regular-expression semantics: some way of splitting `s` into the three
      runs of `[^\s@]+` with `@` and `.` between them. */
  ghost predicate EmailPatternMatches(s: string) {
    exists at, dot :: MatchesAt(s, at, dot)
  }

  /** Position of the first `c` in `s`, or `|s|` when there is none. */
  function IndexOf(s: string, c: char): (k: nat)
    ensures k <= |s| && (k < |s| ==> s[k] == c)
    ensures forall j :: 0 <= j < k ==> s[j] != c
  {
    if |s| == 0 then 0 else if s[0] == c then 0 else 1 + IndexOf(s[1..], c)
  }

  /** `emailRegex.test(s)`, decided directly: one `@` with a nonempty local part, a
      domain free of whitespace and `@`, and a `.` strictly inside the domain. */
  predicate IsValidEmail(s: string) {
    var at := IndexOf(s, '@');
    && 0 < at < |s|
    && AllAddressChars(s[..at])
    && AllAddressChars(s[at + 1..])
    && |s[at + 1..]| >= 3 && '.' in s[at + 2..|s| - 1]
  }

  /** The direct decision agrees with the regular expression on every string. */
  lemma IsValidEmailMatchesPattern(s: string)
    ensures IsValidEmail(s) <==> EmailPatternMatches(s)
  {
    if IsValidEmail(s) {
      ValidEmailHasMatch(s);
    }
    if EmailPatternMatches(s) {
      var a, d :| MatchesAt(s, a, d);
      MatchIsValidEmail(s, a, d);
    }
  }

  /** A string the direct decision accepts has a match of the pattern. */
  lemma ValidEmailHasMatch(s: string)
    requires IsValidEmail(s)
    ensures EmailPatternMatches(s)
  {
    var at := IndexOf(s, '@');
    var inner := s[at + 2..|s| - 1];
    var k :| 0 <= k < |inner| && inner[k] == '.';
    var dot := at + 2 + k;
    var domain := s[at + 1..];
    assert s[dot] == '.';
    assert s[at + 1..dot] == domain[..dot - at - 1];
    assert s[dot + 1..] == domain[dot - at..];
    assert MatchesAt(s, at, dot);
  }

  /** Every match of the pattern is one the direct decision accepts. */
  lemma MatchIsValidEmail(s: string, a: int, d: int)
    requires MatchesAt(s, a, d)
    ensures IsValidEmail(s)
  {
    var at := IndexOf(s, '@');
    assert forall j :: 0 <= j < a ==> s[..a][j] == s[j];
    assert at == a;
    var domain := s[at + 1..];
    assert domain == s[at + 1..d] + [s[d]] + s[d + 1..];
    assert AllAddressChars(domain);
    assert s[at + 2..|s| - 1][d - at - 2] == '.';
  }

  // ---------------------------------------------------------------------------
  // Message in a bottle and the contact page

  /** What a submit listener ends in: the "fill in all fields" alert, the "valid
      e-mail" alert, the send with the trimmed values, or a `TypeError` thrown by
      reading `.value` of a control that is not there. */
  datatype Verdict = MissingFields | InvalidEmail | Accepted(name: string, email: string, message: string) | Thrown

  /** `field ? field.value.trim() : ''`: a missing control reads as empty. */
  function TrimmedOrEmpty(control: Option<string>): (r: string)
    ensures r == "" <==> control.None? || AllWhitespace(control.value)
    ensures control.Some? ==> r == Trim(control.value)
  {
    match control
    case Some(v) => TrimEmptyIffBlank(v); Trim(v)
    case None => ""
  }

  /** The message-in-a-bottle submit listener: all three trimmed values must be
      nonempty, then the trimmed address must match the e-mail pattern. */
  function BottleSubmit(name: Option<string>, email: Option<string>, message: Option<string>): (v: Verdict)
    ensures v.Accepted? <==> (name.Some? && !AllWhitespace(name.value)) && (message.Some? && !AllWhitespace(message.value))
                             && email.Some? && EmailPatternMatches(Trim(email.value))
    ensures v == MissingFields <==> (name.None? || AllWhitespace(name.value)) || (email.None? || AllWhitespace(email.value))
                                    || (message.None? || AllWhitespace(message.value))
    ensures v.Accepted? ==> v.name == Trim(name.value) && v.email == Trim(email.value) && v.message == Trim(message.value)
    ensures v != Thrown
  {
    var n, e, m := TrimmedOrEmpty(name), TrimmedOrEmpty(email), TrimmedOrEmpty(message);
    IsValidEmailMatchesPattern(e);
    if n == "" || e == "" || m == "" then MissingFields
    else if !IsValidEmail(e) then InvalidEmail
    else Accepted(n, e, m)
  }

  /** The contact page's submit listener (only on a path containing `contact.html`,
      and only when the form, the textarea, the counter and the send button exist):
      it reads `#senderName` and `#senderEmail` without checking that they exist,
      and checks only that none of the three trimmed values is blank. */
  function ContactSubmit(name: Option<string>, email: Option<string>, message: string): (v: Verdict)
    ensures v == Thrown <==> name.None? || email.None?
    ensures v.Accepted? <==> name.Some? && email.Some?
                             && !AllWhitespace(name.value) && !AllWhitespace(email.value) && !AllWhitespace(message)
    ensures v != InvalidEmail
    ensures v.Accepted? ==> v == Accepted(Trim(name.value), Trim(email.value), Trim(message))
  {
    match (name, email)
    case (Some(nv), Some(ev)) =>
      TrimEmptyIffBlank(nv);
      TrimEmptyIffBlank(ev);
      TrimEmptyIffBlank(message);
      var n, e, m := Trim(nv), Trim(ev), Trim(message);
      if n == "" || e == "" || m == "" then MissingFields else Accepted(n, e, m)
    case _ => Thrown
  }

  /** The contact check is weaker than the bottle check: it lets through an address
      without `@`, which the e-mail pattern refuses. */
  lemma ContactAcceptsMalformedAddress(name: string, email: string, message: string)
    requires !AllWhitespace(name) && !AllWhitespace(message)
    requires !AllWhitespace(email) && '@' !in email
    ensures ContactSubmit(Some(name), Some(email), message).Accepted?
    ensures BottleSubmit(Some(name), Some(email), Some(message)) == InvalidEmail
  {
    TrimIsCore(email);
  }

  /** On contact.html both page-specific submit listeners are attached to
      `#messageBottleForm` (the bottle listener first) and both run on every
      submit: the pair of their verdicts, with the textarea present. The generic
      form listener runs after them (`GenericSubmitAfterRefusedAddress`). */
  function ContactPageSubmit(name: Option<string>, email: Option<string>, message: string): (r: (Verdict, Verdict))
  {
    (BottleSubmit(name, email, Some(message)), ContactSubmit(name, email, message))
  }

  /** On contact.html the message is sent exactly when the three controls are
      there and filled: the e-mail pattern only adds an alert. An address the
      bottle listener refuses is sent by the contact listener all the same, and a
      missing name or address control makes the contact listener throw after the
      bottle listener's "fill in all fields" alert. */
  lemma {:induction false} ContactPageSendsUnvalidatedAddress(name: Option<string>, email: Option<string>, message: string)
    ensures var (bottle, contact) := ContactPageSubmit(name, email, message);
            && (bottle.Accepted? || contact.Accepted? <==>
                  name.Some? && email.Some? && !AllWhitespace(name.value) && !AllWhitespace(email.value) && !AllWhitespace(message))
            && (bottle == InvalidEmail ==> contact.Accepted?)
            && (bottle.Accepted? ==> contact == bottle)
            && (contact == Thrown ==> bottle == MissingFields)
  {
    var (bottle, contact) := ContactPageSubmit(name, email, message);
    if bottle.Accepted? {
      assert contact == Accepted(Trim(name.value), Trim(email.value), Trim(message));
    }
  }

  /** The generic submit listener every `<form>` gets runs on `#messageBottleForm`
      too, after the page-specific ones, and it knows nothing of the e-mail
      pattern: a form whose three required controls hold a name, an address
      without `@` and a message is refused by the bottle listener and yet passes
      the generic check, which then shows "Message Sent!" and resets the form. */
  lemma GenericSubmitAfterRefusedAddress(name: string, email: string, message: string)
    requires !AllWhitespace(name) && !AllWhitespace(message)
    requires !AllWhitespace(email) && '@' !in email
    ensures BottleSubmit(Some(name), Some(email), Some(message)) == InvalidEmail
    ensures AllRequiredFilled([Field(name, "", true, {}), Field(email, "", true, {}), Field(message, "", true, {})])
  {
    ContactAcceptsMalformedAddress(name, email, message);
    TrimEmptyIffBlank(name);
    TrimEmptyIffBlank(email);
    TrimEmptyIffBlank(message);
    var fields := [Field(name, "", true, {}), Field(email, "", true, {}), Field(message, "", true, {})];
    assert !IsBlank(fields[0].value) && !IsBlank(fields[1].value) && !IsBlank(fields[2].value);
  }

  // ---------------------------------------------------------------------------
  // Character counters

  datatype Color = Gray | Amber | Red

  /** The colour's CSS value. */
  function Css(c: Color): string {
    match c
    case Gray => "#9ca3af"
    case Amber => "#f59e0b"
    case Red => "#ef4444"
  }

  const MAX_LENGTH: nat := 500

  /** The counter text `${length}/500`. */
  function CounterText(length: nat): (t: string)
    ensures |t| == |NatToString(length)| + 4
    ensures t[..|t| - 4] == NatToString(length) && t[|t| - 4..] == "/500"
  {
    NatToString(length) + "/500"
  }

  /** The message-in-a-bottle counter: with `remaining = 500 - length`, red when
      remaining is negative, amber when under 50, gray otherwise. */
  function BottleCounterColor(length: nat): (c: Color)
    ensures c == Red <==> length > 500
    ensures c == Amber <==> 450 < length <= 500
    ensures c == Gray <==> length <= 450
  {
    var remaining := MAX_LENGTH - length;
    if remaining < 50 then (if remaining < 0 then Red else Amber) else Gray
  }

  /** The contact page's counter: red above 450, amber above 350, gray otherwise. */
  function ContactCounterColor(length: nat): (c: Color)
    ensures Rank(BottleCounterColor(length)) <= Rank(c) <= Rank(BottleCounterColor(length)) + 1
  {
    if length > 450 then Red else if length > 350 then Amber else Gray
  }

  /** The two rules disagree exactly on lengths 351 to 500, and there the contact
      rule is always one step redder. */
  lemma CounterRulesConflict(length: nat)
    ensures BottleCounterColor(length) != ContactCounterColor(length) <==> 350 < length <= 500
    ensures 350 < length <= 450 ==> BottleCounterColor(length) == Gray && ContactCounterColor(length) == Amber
    ensures 450 < length <= 500 ==> BottleCounterColor(length) == Amber && ContactCounterColor(length) == Red
  {
  }

  /** Both rules only ever get redder as the text grows. */
  lemma CounterColorsMonotone(m: nat, n: nat)
    requires m <= n
    ensures Rank(BottleCounterColor(m)) <= Rank(BottleCounterColor(n))
    ensures Rank(ContactCounterColor(m)) <= Rank(ContactCounterColor(n))
  {
  }

  function Rank(c: Color): nat {
    match c
    case Gray => 0
    case Amber => 1
    case Red => 2
  }

  /** The counter text gives back the length it was made from. */
  lemma CounterTextRoundTrip(length: nat)
    ensures var t := CounterText(length); AllDigits(t[..|t| - 4]) && ParseDecimal(t[..|t| - 4]) == length
  {
    ParseNatToString(length);
  }
}
