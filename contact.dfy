/**
 * The contact form endpoint's input handling (functions/api/contact.ts):
 * the parsed body, the normalisation of its three fields and the ordered
 * field checks that precede the insert.
 */
module Contact {
  import opened Wrappers
  import opened Js
  import Text

  const MIN_MESSAGE: int := 10
  const MAX_MESSAGE: int := 5000

  datatype Rejection = Rejection(field: string, message: string)

  /** The row the endpoint inserts. */
  datatype Message = Message(name: string, email: string, message: string)

  /** Name and message are trimmed; the email is trimmed and lower-cased. */
  function NormaliseText(name: string, email: string, message: string): Message {
    Message(Text.Trim(name), Text.ToLower(Text.Trim(email)), Text.Trim(message))
  }

  function Normalise(name: Value, email: Value, message: Value, show: real -> string): Message {
    NormaliseText(FieldText(name, show), FieldText(email, show), FieldText(message, show))
  }

  /** The normalised fields pass every check. */
  predicate Acceptable(m: Message) {
    m.name != "" && '@' in m.email && MIN_MESSAGE <= |m.message| <= MAX_MESSAGE
  }

  /** The ordered checks on the normalised fields; the first failure is
      reported. */
  function CheckFields(m: Message): (r: Result<Message, Rejection>)
    ensures r.Ok? <==> Acceptable(m)
    ensures r.Ok? ==> r.value == m
    ensures m.name == "" ==> r == Err(Rejection("name", "Name is required."))
    ensures m.name != "" && '@' !in m.email ==> r == Err(Rejection("email", "Valid email is required."))
    ensures m.name != "" && '@' in m.email && |m.message| < MIN_MESSAGE ==>
              r == Err(Rejection("message", "Message is too short."))
    ensures m.name != "" && '@' in m.email && |m.message| > MAX_MESSAGE ==>
              r == Err(Rejection("message", "Message is too long."))
  {
    if m.name == "" then Err(Rejection("name", "Name is required."))
    else if m.email == "" || '@' !in m.email then Err(Rejection("email", "Valid email is required."))
    else if m.message == "" || |m.message| < MIN_MESSAGE then Err(Rejection("message", "Message is too short."))
    else if |m.message| > MAX_MESSAGE then Err(Rejection("message", "Message is too long."))
    else Ok(m)
  }

  /** Validation of a contact submission. `body` is what `readJson` returns
      (null when the body does not parse), `name`, `email` and `message` the
      values of its properties (undefined when absent); `show` is
      JavaScript's Number-to-String conversion. An unparseable or falsy body
      is reported before any field. */
  function CheckContact(body: Value, name: Value, email: Value, message: Value, show: real -> string)
    : (r: Result<Message, Rejection>)
    ensures !Truthy(body) ==> r == Err(Rejection("body", "Invalid JSON."))
    ensures Truthy(body) ==> r == CheckFields(Normalise(name, email, message, show))
  {
    if !Truthy(body) then Err(Rejection("body", "Invalid JSON."))
    else CheckFields(Normalise(name, email, message, show))
  }

  /** Trimming and lower-casing never introduce an '@'. */
  lemma {:induction false} AtSurvivesOnlyFromRaw(raw: string)
    ensures '@' in Text.ToLower(Text.Trim(raw)) ==> '@' in raw
  {
    var t := Text.Trim(raw);
    Text.ToLowerKeepsChar(t, '@');
    var i, j := Text.TrimIsSlice(raw);
    if '@' in t {
      var k :| 0 <= k < |t| && t[k] == '@';
      assert raw[i + k] == '@';
    }
  }

  /** A name that is blank after trimming is exactly an all-whitespace one;
      an email that passes had an '@' in its raw text. */
  lemma BlankNameAndEmailRules(name: string, email: string, message: string)
    ensures NormaliseText(name, email, message).name == "" <==> Text.AllWhitespace(name)
    ensures '@' in NormaliseText(name, email, message).email ==> '@' in email
  {
    Text.TrimEmptyIff(name);
    AtSurvivesOnlyFromRaw(email);
  }

  /** Trimming then lower-casing is idempotent. */
  lemma {:induction false} EmailNormIdempotent(raw: string)
    ensures Text.ToLower(Text.Trim(Text.ToLower(Text.Trim(raw)))) == Text.ToLower(Text.Trim(raw))
  {
    var t := Text.Trim(raw);
    Text.TrimIdempotent(raw);
    Text.TrimmedStaysTrimmed(t);
    Text.ToLowerIdempotent(t);
  }

  /** The normalised fields are fixed points of the normalisation. */
  lemma {:induction false} NormaliseIdempotent(name: string, email: string, message: string)
    ensures var m := NormaliseText(name, email, message);
            NormaliseText(m.name, m.email, m.message) == m
  {
    Text.TrimIdempotent(name);
    Text.TrimIdempotent(message);
    EmailNormIdempotent(email);
  }

  /** An accepted message is already normalised: submitting its fields
      again yields the same row. */
  lemma {:induction false} AcceptedIsStable(body: Value, name: Value, email: Value, message: Value, show: real -> string)
    requires CheckContact(body, name, email, message, show).Ok?
    ensures var m := CheckContact(body, name, email, message, show).value;
            CheckContact(body, Str(m.name), Str(m.email), Str(m.message), show) == Ok(m)
  {
    var m := Normalise(name, email, message, show);
    NormaliseIdempotent(FieldText(name, show), FieldText(email, show), FieldText(message, show));
    NormaliseOfStrings(m, show);
  }

  /** String fields reach the normalisation unchanged. */
  lemma NormaliseOfStrings(m: Message, show: real -> string)
    ensures Normalise(Str(m.name), Str(m.email), Str(m.message), show) == NormaliseText(m.name, m.email, m.message)
  {
  }
}
