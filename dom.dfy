/** The one browser facility the emptiness rules depend on: the `textContent`
    of an element after its `innerHTML` is set to a fragment. It is modelled
    for the fragment grammar the editor produces (bold, italic, bulleted
    lists, line breaks and the `div` wrappers an editable surface inserts),
    not for full HTML parsing. Setting `innerHTML` is taken not to rewrite
    the fragment: reading it back gives the same text, which holds for
    fragments already in the browser's serialised form. */
module Dom {

  /** A `<` followed by one of these opens a tag; otherwise `<` is text. */
  predicate IsTagStart(c: char) {
    ('a' <= c <= 'z') || ('A' <= c <= 'Z') || c == '/' || c == '!'
  }

  /** What follows the first `>`: the rest of the fragment after a tag. A tag
      left open at the end of the fragment swallows what remains. */
  function AfterTag(s: string): (r: string)
    ensures |r| < |s| || r == []
    ensures '>' in s ==> |r| < |s|
  {
    if s == [] then []
    else if s[0] == '>' then s[1..]
    else AfterTag(s[1..])
  }

  /** `textContent`: tags contribute nothing, the four entities that
      `innerHTML` writes for text (`&nbsp;`, `&amp;`, `&lt;`, `&gt;`) decode
      to one character each, and every other character is itself. */
  function TextContent(html: string): (r: string)
    ensures |r| <= |html|
    decreases |html|
  {
    if html == [] then []
    else if |html| >= 2 && html[0] == '<' && IsTagStart(html[1]) then
      TextContent(AfterTag(html[1..]))
    else if "&nbsp;" <= html then ['\U{00A0}'] + TextContent(html[6..])
    else if "&amp;" <= html then ['&'] + TextContent(html[5..])
    else if "&lt;" <= html then ['<'] + TextContent(html[4..])
    else if "&gt;" <= html then ['>'] + TextContent(html[4..])
    else [html[0]] + TextContent(html[1..])
  }

  /** A fragment made of tags only, such as `<br>` or `<div><br></div>`. */
  predicate IsMarkupOnly(s: string)
    decreases |s|
  {
    s == [] ||
    (|s| >= 2 && s[0] == '<' && IsTagStart(s[1]) && '>' in s[1..]
     && IsMarkupOnly(AfterTag(s[1..])))
  }

  /** Markup with no text between its tags has empty text content. */
  lemma {:induction false} MarkupOnlyHasNoText(s: string)
    requires IsMarkupOnly(s)
    ensures TextContent(s) == []
    decreases |s|
  {
    if s != [] {
      MarkupOnlyHasNoText(AfterTag(s[1..]));
    }
  }

  /** A fragment without `<` or `&` is all text. */
  lemma {:induction false} PlainTextIsItsOwnContent(s: string)
    requires '<' !in s && '&' !in s
    ensures TextContent(s) == s
  {
    if s != [] {
      assert s[0] != '&';
      assert !("&nbsp;" <= s) && !("&amp;" <= s) && !("&lt;" <= s) && !("&gt;" <= s);
      assert '<' !in s[1..] && '&' !in s[1..];
      PlainTextIsItsOwnContent(s[1..]);
      assert [s[0]] + s[1..] == s;
    }
  }

  /** A tag adds nothing to the text content of what follows it. */
  lemma {:induction false} TagAddsNoText(name: string, rest: string)
    requires name != [] && IsTagStart(name[0]) && '>' !in name
    ensures TextContent("<" + name + ">" + rest) == TextContent(rest)
  {
    var s := "<" + name + ">" + rest;
    assert s[1..] == name + ">" + rest;
    AfterTagPastName(name, rest);
  }

  lemma {:induction false} AfterTagPastName(name: string, rest: string)
    requires '>' !in name
    ensures AfterTag(name + ">" + rest) == rest
  {
    if name != [] {
      assert (name + ">" + rest)[1..] == name[1..] + ">" + rest;
      AfterTagPastName(name[1..], rest);
    } else {
      assert name + ">" + rest == ">" + rest;
    }
  }

  /** A line break alone has no text. */
  lemma LineBreakHasNoText()
    ensures TextContent("<br>") == []
  {
    TagAddsNoText("br", "");
    assert "<br>" == "<" + "br" + ">" + "";
  }

  /** Three tags in a row have no text. */
  lemma {:induction false} ThreeTagsHaveNoText(x: string, y: string, z: string)
    requires x != [] && IsTagStart(x[0]) && '>' !in x
    requires y != [] && IsTagStart(y[0]) && '>' !in y
    requires z != [] && IsTagStart(z[0]) && '>' !in z
    ensures TextContent("<" + x + ">" + ("<" + y + ">" + ("<" + z + ">"))) == []
  {
    TagAddsNoText(z, "");
    assert "<" + z + ">" + "" == "<" + z + ">";
    TagAddsNoText(y, "<" + z + ">");
    TagAddsNoText(x, "<" + y + ">" + ("<" + z + ">"));
  }

  /** A wrapped line break, the fragment an emptied editable surface leaves
      behind, has no text. */
  lemma WrappedLineBreakHasNoText()
    ensures TextContent("<div><br></div>") == []
  {
    ThreeTagsHaveNoText("div", "br", "/div");
    assert "<" + "div" + ">" + ("<" + "br" + ">" + ("<" + "/div" + ">")) == "<div><br></div>";
  }

  /** An empty bold element has no text. */
  lemma EmptyBoldHasNoText()
    ensures TextContent("<b></b>") == []
  {
    TagAddsNoText("/b", "");
    assert "</b>" == "<" + "/b" + ">" + "";
    TagAddsNoText("b", "</b>");
    assert "<b></b>" == "<" + "b" + ">" + "</b>";
  }
}
