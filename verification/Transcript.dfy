/** The length-prefixed login transcript. Each character of a text here stands for one byte of it. */
module Transcript {
  import opened Results
  import opened Decimals

  datatype Field = Field(name: string, value: string)

  /** Field values as the handler passes them: the identifier's text, and base64url of the nonces. */
  datatype LoginAuthMessage = LoginAuthMessage(
    challengeId: string,
    authProtocol: string,
    loginHandleNormalized: string,
    clientNonce: string,
    serverNonce: string,
    clientFinalWithoutProof: string)

  const PREFIX := "password-vault/login-auth-message/v1\n"

  const NAMES := ["challenge_id", "auth_protocol", "login_handle_normalized", "client_nonce", "server_nonce",
                  "client_final_without_proof"]

  function FieldText(name: string, value: string): string {
    name + "=" + Decimal(|value|) + ":" + value + "\n"
  }

  function Values(m: LoginAuthMessage): (vs: seq<string>)
    ensures |vs| == |NAMES|
  {
    [m.challengeId, m.authProtocol, m.loginHandleNormalized, m.clientNonce, m.serverNonce, m.clientFinalWithoutProof]
  }

  function FieldsText(names: seq<string>, values: seq<string>): string
    requires |names| == |values|
  {
    if names == [] then "" else FieldText(names[0], values[0]) + FieldsText(names[1..], values[1..])
  }

  function Text(m: LoginAuthMessage): string {
    PREFIX + FieldsText(NAMES, Values(m))
  }

  // ----- building it in one growing buffer -----

  class Buffer {
    var bytes: string

    constructor ()
      ensures bytes == ""
    {
      bytes := "";
    }

    method Extend(more: string)
      modifies this
      ensures bytes == old(bytes) + more
    {
      bytes := bytes + more;
    }
  }

  method PushField(output: Buffer, name: string, value: string)
    modifies output
    ensures output.bytes == old(output.bytes) + FieldText(name, value)
  {
    output.Extend(name);
    output.Extend("=");
    output.Extend(Decimal(|value|));
    output.Extend(":");
    output.Extend(value);
    output.Extend("\n");
  }

  method BuildLoginAuthMessage(m: LoginAuthMessage) returns (text: string)
    ensures text == Text(m)
  {
    var output := new Buffer();
    output.Extend(PREFIX);
    FirstFields(m, 0);
    PushNamed(output, m, 0, "challenge_id", m.challengeId);
    PushNamed(output, m, 1, "auth_protocol", m.authProtocol);
    PushNamed(output, m, 2, "login_handle_normalized", m.loginHandleNormalized);
    PushNamed(output, m, 3, "client_nonce", m.clientNonce);
    PushNamed(output, m, 4, "server_nonce", m.serverNonce);
    PushNamed(output, m, 5, "client_final_without_proof", m.clientFinalWithoutProof);
    FirstFields(m, 5);
    text := output.bytes;
  }

  /** One push, and how far it takes the message. */
  method PushNamed(output: Buffer, m: LoginAuthMessage, ghost k: nat, name: string, value: string)
    requires k < |NAMES| && name == NAMES[k] && value == Values(m)[k] && output.bytes == TextUpTo(m, k)
    modifies output
    ensures output.bytes == TextUpTo(m, k + 1)
  {
    PushField(output, name, value);
    FirstFields(m, k);
  }

  /** The message after its first k fields. */
  function TextUpTo(m: LoginAuthMessage, k: nat): string
    requires k <= |NAMES|
  {
    PREFIX + FieldsText(NAMES[..k], Values(m)[..k])
  }

  lemma FirstFields(m: LoginAuthMessage, k: nat)
    requires k < |NAMES|
    ensures TextUpTo(m, k + 1) == TextUpTo(m, k) + FieldText(NAMES[k], Values(m)[k])
    ensures k == 0 ==> TextUpTo(m, k) == PREFIX
    ensures k == 5 ==> TextUpTo(m, k + 1) == Text(m)
  {
    FieldsSnoc(NAMES, Values(m), k);
    assert NAMES[..6] == NAMES && Values(m)[..6] == Values(m);
  }

  lemma {:induction false} FieldsSnoc(names: seq<string>, values: seq<string>, k: nat)
    requires k < |names| == |values|
    ensures FieldsText(names[..k + 1], values[..k + 1])
            == FieldsText(names[..k], values[..k]) + FieldText(names[k], values[k])
  {
    if k == 0 {
      assert names[..1] == [names[0]] && values[..1] == [values[0]] && names[..1][1..] == [];
    } else {
      FieldsSnoc(names[1..], values[1..], k - 1);
      assert names[..k + 1][1..] == names[1..][..k] && values[..k + 1][1..] == values[1..][..k];
      assert names[..k][1..] == names[1..][..k - 1] && values[..k][1..] == values[1..][..k - 1];
    }
  }

  // ----- reading it back -----

  /** How many digits the text starts with. */
  function DigitSpan(s: string): (n: nat)
    ensures n <= |s| && AllDigits(s[..n])
  {
    if s == "" || !IsDigit(s[0]) then 0
    else
      var n := DigitSpan(s[1..]);
      assert s[..n + 1] == [s[0]] + s[1..][..n];
      n + 1
  }

  datatype Parsed = Parsed(value: string, rest: string)

  /** Read one named field from the front of the text. */
  function ParseField(name: string, text: string): Option<Parsed> {
    if !(name + "=" <= text) then None
    else
      var t := text[|name| + 1..];
      var n := DigitSpan(t);
      if n == 0 || n == |t| || t[n] != ':' then None
      else
        var length, body := Value(t[..n]), t[n + 1..];
        if |body| <= length || body[length] != '\n' then None
        else Some(Parsed(body[..length], body[length + 1..]))
  }

  function ParseFields(names: seq<string>, text: string): Option<seq<string>> {
    if names == [] then (if text == "" then Some([]) else None)
    else
      match ParseField(names[0], text)
      case None => None
      case Some(p) =>
        var rest := ParseFields(names[1..], p.rest);
        if rest.None? then None else Some([p.value] + rest.value)
  }

  function Parse(text: string): Option<seq<string>> {
    if PREFIX <= text then ParseFields(NAMES, text[|PREFIX|..]) else None
  }

  lemma {:induction false} DigitSpanStops(digits: string, rest: string)
    requires AllDigits(digits) && (rest == "" || !IsDigit(rest[0]))
    ensures DigitSpan(digits + rest) == |digits|
  {
    if digits == "" {
      assert digits + rest == rest;
    } else {
      assert (digits + rest)[1..] == digits[1..] + rest;
      DigitSpanStops(digits[1..], rest);
    }
  }

  /** A field reads back whatever its value contains, and whatever follows it. */
  lemma ParseFieldText(name: string, value: string, rest: string)
    ensures ParseField(name, FieldText(name, value) + rest) == Some(Parsed(value, rest))
  {
    var text, digits := FieldText(name, value) + rest, Decimal(|value|);
    var t, body := digits + (":" + (value + "\n" + rest)), value + "\n" + rest;
    assert text == (name + "=") + t;
    assert text[|name| + 1..] == t;
    DigitSpanStops(digits, ":" + body);
    ValueOfDecimal(|value|);
    assert t[..|digits|] == digits && t[|digits|] == ':' && t[|digits| + 1..] == body;
    assert body[..|value|] == value && body[|value|] == '\n' && body[|value| + 1..] == rest;
  }

  lemma {:induction false} ParseFieldsText(names: seq<string>, values: seq<string>)
    requires |names| == |values|
    ensures ParseFields(names, FieldsText(names, values)) == Some(values)
  {
    if names != [] {
      ParseFieldText(names[0], values[0], FieldsText(names[1..], values[1..]));
      ParseFieldsText(names[1..], values[1..]);
      assert [values[0]] + values[1..] == values;
    }
  }

  /** All six fields can be read back from the message, for all field contents. */
  lemma TranscriptParses(m: LoginAuthMessage)
    ensures Parse(Text(m)) == Some(Values(m))
  {
    ParseFieldsText(NAMES, Values(m));
    assert Text(m)[|PREFIX|..] == FieldsText(NAMES, Values(m));
  }

  /** Equal messages mean equal fields. */
  lemma TranscriptUnambiguous(m: LoginAuthMessage, n: LoginAuthMessage)
    requires Text(m) == Text(n)
    ensures m == n
  {
    TranscriptParses(m);
    TranscriptParses(n);
    var vs, ws := Values(m), Values(n);
    assert vs[0] == ws[0] && vs[1] == ws[1] && vs[2] == ws[2] && vs[3] == ws[3] && vs[4] == ws[4] && vs[5] == ws[5];
  }
}
