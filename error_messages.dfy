/** The project-wide exception handler: after the framework's own handler
    has built a response, a plain `{"detail": ...}` body whose status code
    has an Uzbek message gets that message instead. Field-level error
    bodies and status codes without a message are left alone. */
module ErrorMessages {
  import opened Wrappers

  /** A message of the table: plain text, or text with one `{method}`
      placeholder, kept split at the placeholder. */
  datatype Template = Plain(text: string) | WithMethod(before: string, after: string)

  const Placeholder: string := "{method}"

  /** The message as the table spells it. */
  function Spelled(t: Template): string
  {
    match t
    case Plain(text) => text
    case WithMethod(before, after) => before + Placeholder + after
  }

  /** The text around the placeholder of the 405 message. */
  const NotAllowedBefore: string := "Bu so'rov turi ("
  const NotAllowedAfter: string := ") qo'llab-quvvatlanmaydi."

  /** The Uzbek message table. */
  const Messages: map<int, Template> := map[
    400 := Plain("So'rov ma'lumotlari noto'g'ri."),
    401 := Plain("Tizimga kirish talab etiladi. Iltimos, avval login qiling."),
    403 := Plain("Bu amalni bajarishga ruxsatingiz yo'q."),
    404 := Plain("So'ralgan ma'lumot topilmadi."),
    405 := WithMethod(NotAllowedBefore, NotAllowedAfter),
    406 := Plain("So'ralgan format qabul qilinmaydi."),
    415 := Plain("Yuborilgan fayl turi qo'llab-quvvatlanmaydi."),
    429 := Plain("So'rovlar soni limitdan oshdi. Keyinroq urinib ko'ring."),
    500 := Plain("Server xatosi yuz berdi. Iltimos, keyinroq urinib ko'ring."),
    503 := Plain("Xizmat vaqtincha mavjud emas. Keyinroq urinib ko'ring.")
  ]

  /** Every message is non-empty, so the handler's truthiness test on the
      looked-up message is the same as the status code having an entry;
      405 is the only template with a placeholder. */
  lemma MessageTable()
    ensures Messages.Keys == {400, 401, 403, 404, 405, 406, 415, 429, 500, 503}
    ensures forall code | code in Messages :: Spelled(Messages[code]) != ""
    ensures forall code | code in Messages :: Messages[code].WithMethod? <==> code == 405
  {
  }

  /** `template.format(method=m)` for templates whose only brace is a
      `{method}` placeholder: each placeholder is replaced by `m`. */
  function FormatMethod(template: string, m: string): (r: string)
    decreases |template|
  {
    if |template| < |Placeholder| then template
    else if template[..|Placeholder|] == Placeholder then m + FormatMethod(template[|Placeholder|..], m)
    else [template[0]] + FormatMethod(template[1..], m)
  }

  /** A template without braces formats to itself. */
  lemma {:induction false} FormatWithoutBraces(template: string, m: string)
    requires '{' !in template
    ensures FormatMethod(template, m) == template
    decreases |template|
  {
    if |template| >= |Placeholder| {
      assert template[..|Placeholder|][0] == template[0] != '{';
      FormatWithoutBraces(template[1..], m);
    }
  }

  /** A template with one placeholder and no other brace formats to the
      text around it with the method in between. */
  lemma {:induction false} FormatOnePlaceholder(prefix: string, suffix: string, m: string)
    requires '{' !in prefix && '{' !in suffix
    ensures FormatMethod(prefix + Placeholder + suffix, m) == prefix + m + suffix
    decreases |prefix|
  {
    var t := prefix + Placeholder + suffix;
    if prefix == [] {
      assert t[..|Placeholder|] == Placeholder;
      assert t[|Placeholder|..] == suffix;
      FormatWithoutBraces(suffix, m);
    } else {
      assert t[..|Placeholder|][0] == prefix[0] != '{';
      assert t[1..] == prefix[1..] + Placeholder + suffix;
      FormatOnePlaceholder(prefix[1..], suffix, m);
    }
  }

  /** The message for a request with the given method name. */
  function Render(t: Template, m: string): (r: string)
    ensures t.Plain? ==> r == t.text
    ensures t.WithMethod? ==> r == t.before + m + t.after
  {
    match t
    case Plain(text) => text
    case WithMethod(before, after) => before + m + after
  }

  /** Rendering a template is `str.format` on its spelling, as long as the
      text around the placeholder has no brace of its own. */
  lemma RenderIsFormat(t: Template, m: string)
    requires t.Plain? ==> '{' !in t.text
    requires t.WithMethod? ==> '{' !in t.before && '{' !in t.after
    ensures FormatMethod(Spelled(t), m) == Render(t, m)
  {
    match t
    case Plain(text) => FormatWithoutBraces(text, m);
    case WithMethod(before, after) => FormatOnePlaceholder(before, after, m);
  }

  /** The text around the 405 placeholder has no brace of its own. */
  lemma NotAllowedBraceFree()
    ensures '{' !in NotAllowedBefore && '{' !in NotAllowedAfter
  {
    assert NotAllowedAfter == ") qo'llab-" + "quvvatlanmaydi.";
    assert '{' !in ") qo'llab-" && '{' !in "quvvatlanmaydi.";
  }

  /** For the 405 entry, the one message with a placeholder, the handler's
      message is `template.format(method=m)` on the text as the table
      spells it: the method name lands where `{method}` stood. */
  lemma NotAllowedRenderIsFormat(m: string)
    ensures FormatMethod(Spelled(Messages[405]), m) == Render(Messages[405], m)
    ensures Render(Messages[405], m) == NotAllowedBefore + m + NotAllowedAfter
  {
    assert Messages[405] == WithMethod(NotAllowedBefore, NotAllowedAfter);
    NotAllowedBraceFree();
    RenderIsFormat(Messages[405], m);
  }

  /** A value in an error body: one message or a list of them. */
  datatype ErrorValue = Text(text: string) | Texts(texts: seq<string>)

  /** A response body: a dict of keys to messages, or anything else (a
      list of errors, say). */
  datatype ErrorData = Dict(fields: map<string, ErrorValue>) | NotDict(items: seq<string>)

  /** The handler's key test: a dict whose only key is "detail". */
  predicate DetailOnly(data: ErrorData)
  {
    data.Dict? && data.fields.Keys == {"detail"}
  }

  /** Assigning the detail of a detail-only dict leaves a dict holding just
      the new detail. */
  lemma DetailReplaced(fields: map<string, ErrorValue>, v: ErrorValue)
    requires fields.Keys == {"detail"}
    ensures fields["detail" := v] == map["detail" := v]
  {
    var a := fields["detail" := v];
    var b := map["detail" := v];
    assert a.Keys == b.Keys;
    forall k | k in a ensures a[k] == b[k] {
    }
  }

  /** The method name the handler formats in: the request's method, or the
      empty string without a request. */
  function MethodName(verb: Option<string>): (name: string)
    ensures verb.Some? ==> name == verb.value
    ensures verb.None? ==> name == ""
  {
    if verb.Some? then verb.value else ""
  }

  /** The body the handler leaves. */
  function Rewritten(status: int, data: ErrorData, verb: Option<string>): (d: ErrorData)
    ensures status !in Messages || !DetailOnly(data) ==> d == data
    ensures status in Messages && DetailOnly(data) ==>
              d == Dict(map["detail" := Text(Render(Messages[status], MethodName(verb)))])
  {
    if status in Messages && DetailOnly(data) then
      var v := Text(Render(Messages[status], MethodName(verb)));
      DetailReplaced(data.fields, v);
      Dict(data.fields["detail" := v])
    else data
  }

  /** Field-level validation errors are never rewritten, whatever the
      status code. */
  lemma FieldErrorsKept(status: int, fields: map<string, ErrorValue>, verb: Option<string>)
    requires fields.Keys != {"detail"}
    ensures Rewritten(status, Dict(fields), verb) == Dict(fields)
  {
  }

  /** A rewritten body is still a plain detail body, so rewriting again
      changes nothing. */
  lemma RewriteIdempotent(status: int, data: ErrorData, verb: Option<string>)
    ensures Rewritten(status, Rewritten(status, data, verb), verb) == Rewritten(status, data, verb)
  {
  }

  /** For a refused method the message names the method; without a request
      the parentheses are empty. */
  lemma NotAllowedNamesMethod(data: ErrorData, verb: Option<string>)
    requires DetailOnly(data)
    ensures Rewritten(405, data, verb) == Dict(map["detail" := Text("Bu so'rov turi (" + MethodName(verb) + ") qo'llab-quvvatlanmaydi.")])
  {
  }

  /** For every other code in the table the message is the table entry,
      whatever the original detail said. */
  lemma OtherCodesUseTable(status: int, data: ErrorData, verb: Option<string>)
    requires status in Messages && status != 405 && DetailOnly(data)
    ensures Rewritten(status, data, verb) == Dict(map["detail" := Text(Spelled(Messages[status]))])
  {
  }

  /** The response the framework's handler built. */
  class Response {
    var status: int
    var data: ErrorData

    constructor (status: int, data: ErrorData)
      ensures this.status == status && this.data == data
    {
      this.status := status;
      this.data := data;
    }
  }

  /** custom_exception_handler: `response` is what the framework's handler
      returned (null when it did not handle the exception); the detail is
      rewritten in place and the same response is returned. */
  method HandleException(response: Response?, verb: Option<string>) returns (r: Response?)
    modifies if response != null then {response} else {}
    ensures r == response
    ensures response != null ==> response.status == old(response.status)
    ensures response != null ==> response.data == Rewritten(old(response.status), old(response.data), verb)
  {
    if response != null {
      var statusCode := response.status;
      if statusCode in Messages {
        var message := Messages[statusCode];
        if response.data.Dict? && response.data.fields.Keys == {"detail"} {
          var name := if verb.Some? then verb.value else "";
          response.data := Dict(response.data.fields["detail" := Text(Render(message, name))]);
        }
      }
    }
    return response;
  }
}
