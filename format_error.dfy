/**
 * Rendering of an injector error message: `formatError` of the injector compatibility layer.
 * The context of the message is the dependency path (an array, shown `A -> B`), a plain
 * object (shown `{k:v, ...}`) or any other value (shown by the `stringify` collaborator).
 */
module ErrorFormat {
  import opened JsValues

  /** The private marker that, right after a leading newline, says "no newline here". */
  const NO_NEW_LINE: char := '\U{0275}'

  /** Drops a leading newline-plus-marker pair; any other text is left as it is. */
  function StripMarker(text: string): (r: string)
    ensures |text| >= 2 && text[0] == '\n' && text[1] == NO_NEW_LINE ==> r == text[2..]
    ensures !(|text| >= 2 && text[0] == '\n' && text[1] == NO_NEW_LINE) ==> r == text
  {
    if |text| >= 2 && text[0] == '\n' && text[1] == NO_NEW_LINE then text[2..] else text
  }

  /** `text.replace(/\n/gm, '\n  ')`: every newline is followed by two spaces of indentation. */
  function Indent(text: string): string {
    if |text| == 0 then ""
    else if text[0] == '\n' then "\n  " + Indent(text[1..])
    else [text[0]] + Indent(text[1..])
  }

  /** The inverse of `Indent`: removes the two spaces after each newline. */
  function Unindent(s: string): string {
    if |s| == 0 then ""
    else if |s| >= 3 && s[0] == '\n' && s[1] == ' ' && s[2] == ' ' then "\n" + Unindent(s[3..])
    else [s[0]] + Unindent(s[1..])
  }

  /** `parts.join(sep)`. */
  function Join(parts: seq<string>, sep: string): string {
    if |parts| == 0 then ""
    else if |parts| == 1 then parts[0]
    else parts[0] + sep + Join(parts[1..], sep)
  }

  /** `JSON.stringify` of a string, without the escaping of special characters. */
  function Quote(s: string): string {
    "\"" + s + "\""
  }

  /** One `key:value` entry of an object context; string values are quoted. */
  function PropPart(p: Prop, stringify: Value -> string): string {
    p.key + ":" + (if p.value.Str? then Quote(p.value.s) else stringify(p.value))
  }

  function PropParts(props: seq<Prop>, stringify: Value -> string): seq<string> {
    seq(|props|, k requires 0 <= k < |props| => PropPart(props[k], stringify))
  }

  function StringifyAll(elems: seq<Value>, stringify: Value -> string): seq<string> {
    seq(|elems|, k requires 0 <= k < |elems| => stringify(elems[k]))
  }

  /** The own properties an object context lists: none for `null`. */
  function OwnProps(obj: Value): seq<Prop> {
    if obj.Obj? then obj.props else []
  }

  /** The text between the square brackets. `null` has `typeof 'object'` and shows as `{}`. */
  function RenderContext(obj: Value, stringify: Value -> string): (r: string)
    ensures (obj.Obj? || obj.Null?) ==> |r| >= 2 && r[0] == '{' && r[|r| - 1] == '}'
    ensures obj.List? && |obj.elems| == 1 ==> r == stringify(obj.elems[0])
    ensures obj.List? && |obj.elems| == 0 ==> r == ""
  {
    if obj.List? then Join(StringifyAll(obj.elems, stringify), " -> ")
    else if obj.Obj? || obj.Null? then "{" + Join(PropParts(OwnProps(obj), stringify), ", ") + "}"
    else stringify(obj)
  }

  /** `(source)` when the source label is truthy, nothing otherwise. */
  function SourceLabel(source: Option<string>): string {
    if source.Some? && source.value != "" then "(" + source.value + ")" else ""
  }

  /** The whole message `name(source)[context]: text`. */
  function FormatErrorText(text: string, obj: Value, injectorErrorName: string,
                           source: Option<string>, stringify: Value -> string): (r: string)
    ensures var head := injectorErrorName + SourceLabel(source) + "[";
      |r| >= |head| && r[..|head|] == head
    ensures var body := Indent(StripMarker(text));
      |r| >= |body| + 3 && r[|r| - |body| - 3..] == "]: " + body
  {
    injectorErrorName + SourceLabel(source) + "[" + RenderContext(obj, stringify) + "]: "
      + Indent(StripMarker(text))
  }

  /** `formatError`: builds the object entries one property at a time, as the source does. */
  method FormatError(text: string, obj: Value, injectorErrorName: string,
                     stringify: Value -> string, source: Option<string> := None)
    returns (r: string)
    ensures r == FormatErrorText(text, obj, injectorErrorName, source, stringify)
  {
    var t := StripMarker(text);
    var context := stringify(obj);
    if obj.List? {
      context := Join(StringifyAll(obj.elems, stringify), " -> ");
    } else if obj.Obj? || obj.Null? {
      var props := OwnProps(obj);
      var parts: seq<string> := [];
      var i := 0;
      while i < |props|
        invariant 0 <= i <= |props|
        invariant |parts| == i
        invariant forall k :: 0 <= k < i ==> parts[k] == PropPart(props[k], stringify)
      {
        parts := parts + [PropPart(props[i], stringify)];
        i := i + 1;
      }
      assert parts == PropParts(props, stringify);
      context := "{" + Join(parts, ", ") + "}";
    }
    r := injectorErrorName + SourceLabel(source) + "[" + context + "]: " + Indent(t);
  }

  // ---------------------------------------------------------------------------
  // Properties

  /** Re-indentation loses nothing: removing the indentation gives the text back. */
  lemma {:induction false} UnindentIndent(text: string)
    ensures Unindent(Indent(text)) == text
  {
    if |text| > 0 {
      UnindentIndent(text[1..]);
      var rest := Indent(text[1..]);
      if text[0] == '\n' {
        assert Indent(text) == "\n  " + rest;
        assert (("\n  " + rest)[3..]) == rest;
      } else {
        assert Indent(text) == [text[0]] + rest;
        assert ([text[0]] + rest)[1..] == rest;
      }
    }
  }

  /** After re-indentation every newline is followed by two spaces. */
  lemma {:induction false} IndentedNewlines(text: string)
    ensures forall k :: 0 <= k < |Indent(text)| && Indent(text)[k] == '\n' ==>
              k + 2 < |Indent(text)| && Indent(text)[k + 1] == ' ' && Indent(text)[k + 2] == ' '
  {
    if |text| > 0 {
      IndentedNewlines(text[1..]);
      var rest := Indent(text[1..]);
      var head := if text[0] == '\n' then "\n  " else [text[0]];
      assert Indent(text) == head + rest;
      forall k | 0 <= k < |head + rest| && (head + rest)[k] == '\n'
        ensures k + 2 < |head + rest| && (head + rest)[k + 1] == ' ' && (head + rest)[k + 2] == ' '
      {
        if k >= |head| {
          assert (head + rest)[k] == rest[k - |head|];
        }
      }
    }
  }

  /** Text without a newline is not re-indented. */
  lemma {:induction false} IndentWithoutNewline(text: string)
    requires forall k :: 0 <= k < |text| ==> text[k] != '\n'
    ensures Indent(text) == text
  {
    if |text| > 0 {
      IndentWithoutNewline(text[1..]);
    }
  }

  /**
   * The message handed to `formatError` by the error catcher is `'\n' + message`: the
   * leading newline is dropped exactly when the message starts with the marker, and then
   * the marker goes with it.
   */
  lemma MarkerAfterNewline(message: string)
    ensures |message| >= 1 && message[0] == NO_NEW_LINE ==> StripMarker("\n" + message) == message[1..]
    ensures !(|message| >= 1 && message[0] == NO_NEW_LINE) ==> StripMarker("\n" + message) == "\n" + message
  {
    if |message| >= 1 && message[0] == NO_NEW_LINE {
      assert ("\n" + message)[2..] == message[1..];
    }
  }

  /** A source label appears in the output exactly when it is a non-empty string. */
  lemma SourceLabelShown(source: Option<string>)
    ensures SourceLabel(source) != "" <==> source.Some? && source.value != ""
    ensures SourceLabel(source) != "" ==> SourceLabel(source) == "(" + source.value + ")"
  {
  }

  /** A path of labels A, B renders as `A -> B`; text without a marker keeps its newline. */
  lemma ExamplePath(id: nat, stringify: Value -> string)
    requires stringify(Str("A")) == "A" && stringify(Str("B")) == "B"
    ensures FormatErrorText("\nmsg", List(id, [Str("A"), Str("B")]), "NullInjectorError", None, stringify)
            == "NullInjectorError[A -> B]: \n  msg"
  {
    var path := List(id, [Str("A"), Str("B")]);
    ExamplePathContext(path, stringify);
    ExampleNewlineText();
    Assemble("\nmsg", path, "NullInjectorError", None, stringify, "", "A -> B", "\n  msg");
    assert "NullInjectorError" + "" + "[" + "A -> B" + "]: " + "\n  msg" == "NullInjectorError[A -> B]: \n  msg";
  }

  lemma ExamplePathContext(path: Value, stringify: Value -> string)
    requires path.List? && path.elems == [Str("A"), Str("B")]
    requires stringify(Str("A")) == "A" && stringify(Str("B")) == "B"
    ensures RenderContext(path, stringify) == "A -> B"
  {
    var names := StringifyAll(path.elems, stringify);
    assert names == ["A", "B"];
    assert Join(names, " -> ") == "A" + " -> " + "B";
  }

  lemma ExampleNewlineText()
    ensures Indent(StripMarker("\nmsg")) == "\n  msg"
  {
    assert StripMarker("\nmsg") == "\nmsg";
    IndentWithoutNewline("msg");
    assert Indent("\nmsg") == "\n  " + Indent("msg");
  }

  /** An object context lists its own properties, with string values quoted. */
  lemma ExampleObject(id: nat, ctor: nat, stringify: Value -> string)
    requires stringify(Num(1)) == "1"
    ensures FormatErrorText("text", Obj(id, ctor, [Prop("a", Str("x")), Prop("b", Num(1))]), "Err", Some("Src"), stringify)
            == "Err(Src)[{a:\"x\", b:1}]: text"
  {
    var obj := Obj(id, ctor, [Prop("a", Str("x")), Prop("b", Num(1))]);
    ExampleObjectContext(obj, stringify);
    IndentWithoutNewline("text");
    assert SourceLabel(Some("Src")) == "(Src)";
    Assemble("text", obj, "Err", Some("Src"), stringify, "(Src)", "{a:\"x\", b:1}", "text");
    ExampleObjectLiteral();
  }

  lemma ExampleObjectLiteral()
    ensures "Err" + "(Src)" + "[" + "{a:\"x\", b:1}" + "]: " + "text" == "Err(Src)[{a:\"x\", b:1}]: text"
  {
  }

  lemma Assemble(text: string, obj: Value, name: string, source: Option<string>, stringify: Value -> string,
                 shown: string, ctx: string, body: string)
    requires SourceLabel(source) == shown && RenderContext(obj, stringify) == ctx && Indent(StripMarker(text)) == body
    ensures FormatErrorText(text, obj, name, source, stringify) == name + shown + "[" + ctx + "]: " + body
  {
  }

  lemma ExampleObjectContext(obj: Value, stringify: Value -> string)
    requires obj.Obj? && obj.props == [Prop("a", Str("x")), Prop("b", Num(1))]
    requires stringify(Num(1)) == "1"
    ensures RenderContext(obj, stringify) == "{a:\"x\", b:1}"
  {
    var parts := PropParts(obj.props, stringify);
    assert parts[0] == "a:\"x\"" by { assert PropPart(Prop("a", Str("x")), stringify) == "a:" + Quote("x"); }
    assert parts[1] == "b:1";
    assert parts == ["a:\"x\"", "b:1"];
    assert Join(parts, ", ") == "a:\"x\"" + ", " + "b:1";
  }

  /** `null` is an object with no own property: it renders as `{}`. */
  lemma NullContext(stringify: Value -> string)
    ensures RenderContext(Null, stringify) == "{}"
  {
  }
}
