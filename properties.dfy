/** What the converter's output promises, stated over the functions that
    specify its methods. */
module Properties {
  import opened FormTree
  import opened Strings
  import opened Convert

  /** No attribute value of `e` contains a newline. */
  predicate NoNewlines(e: Element)
  {
    forall k :: k in e.attrib ==> SingleLine(e.attrib[k])
  }

  lemma RenderSingleLine(e: Element, key: string)
    requires NoNewlines(e)
    ensures SingleLine(Render(Attr(e, key)))
  {
  }

  lemma {:induction false} OpeningSingleLine(e: Element, t: string)
    requires NoNewlines(e) && SingleLine(t)
    ensures SingleLine(Opening(GetValues(e, t)))
  {
    var v := GetValues(e, t);
    RenderSingleLine(e, "name");
    RenderSingleLine(e, "description");
    assert SingleLine(v.desired);
    assert SingleLine("<entity id=\"") && SingleLine("\" name=\"") && SingleLine("\" label=\"");
    assert SingleLine("\" type=\"") && SingleLine("\" ") && SingleLine(">");
  }

  lemma OptionLinesSingle(bools: seq<Element>, lines: seq<string>)
    requires forall c :: c in bools ==> NoNewlines(c)
    requires Traverse(bools, OptionLine) == Ok(lines)
    ensures forall i :: 0 <= i < |lines| ==> SingleLine(lines[i])
  {
    forall i | 0 <= i < |lines| ensures SingleLine(lines[i]) {
      var c := bools[i];
      assert c in bools;
      assert SingleLine(OptionValue(c.attrib["value"])) && SingleLine(c.attrib["description"]);
      assert SingleLine(OptionOpen) && SingleLine(OptionMid) && SingleLine(OptionClose);
    }
  }

  /** The line layout of a fragment: split at its newlines it is the opening
      tag followed directly by the closing tag when the field has no `bool`
      children; otherwise the opening tag, `    <options>`, exactly one option
      line per `bool` child in child order, `    </options>` and the closing
      tag. Either way the fragment ends with a newline. This holds whenever
      no attribute value contains a newline of its own. */
  lemma FragmentLines(e: Element, t: string)
    requires Fragment(e, t).Ok?
    requires SingleLine(t) && NoNewlines(e)
    requires forall c :: c in ChildrenTagged(e, "bool") ==> NoNewlines(c)
    ensures var bools := ChildrenTagged(e, "bool");
      var head := Opening(GetValues(e, t));
      Lines(Fragment(e, t).value.text)
      == if bools == [] then [head + EntityClose, ""]
         else [head, OptionsOpen] + Traverse(bools, OptionLine).value + [OptionsClose, EntityClose, ""]
  {
    var bools := ChildrenTagged(e, "bool");
    var head := Opening(GetValues(e, t));
    var lines := Traverse(bools, OptionLine).value;
    assert Fragment(e, t).value.text == head + OptionsBlock(lines) + (EntityClose + "\n");
    OpeningSingleLine(e, t);
    if bools == [] {
      assert SingleLine(head + EntityClose);
      assert head + OptionsBlock(lines) + (EntityClose + "\n") == (head + EntityClose) + "\n" + "";
      LinesAfter(head + EntityClose, "");
    } else {
      OptionLinesSingle(bools, lines);
      assert SingleLine(OptionsOpen) && SingleLine(OptionsClose) && SingleLine(EntityClose);
      LayoutLines(head, OptionsOpen, lines, OptionsClose, EntityClose);
    }
  }

  /** Reads back a line written as `open`, a value, `mid`, a description and
      `close`, where `mid` starts with a quote: the value runs up to the first
      quote after `open`, the description from after `mid` to `close`. */
  function ReadWrapped(line: string, open: string, mid: string, close: string): Option<(string, string)>
  {
    if !(open <= line) then None
    else
      var rest := line[|open|..];
      var q := FirstIndex(rest, '"');
      var after := rest[q..];
      if !(mid <= after) || |after| < |mid| + |close|
         || after[|after| - |close|..] != close then None
      else Some((rest[..q], after[|mid|..|after| - |close|]))
  }

  /** Reads an option line back: the value runs from the opening quote to
      the next quote, the description from `">` to the closing `</option>`. */
  function ReadOption(line: string): Option<(string, string)>
  {
    ReadWrapped(line, OptionOpen, OptionMid, OptionClose)
  }

  lemma ReadWrappedOf(open: string, v: string, mid: string, d: string, close: string)
    requires |mid| >= 1 && mid[0] == '"' && '"' !in v
    ensures ReadWrapped(open + v + mid + d + close, open, mid, close) == Some((v, d))
  {
    var line := open + v + mid + d + close;
    var tail := mid[1..] + d + close;
    assert line == open + (v + ['"'] + tail);
    assert line[..|open|] == open;
    var rest := line[|open|..];
    assert rest == v + ['"'] + tail;
    FirstIndexAfter(v, '"', tail);
    assert rest[..|v|] == v;
    var after := rest[|v|..];
    assert after == mid + d + close;
    assert after[..|mid|] == mid;
    assert after[|after| - |close|..] == close;
    assert after[|mid|..|after| - |close|] == d;
  }

  /** Reading back an option line written from value `v` and description
      `d` yields both, provided `v` has no quote in it. */
  lemma ReadOptionOf(v: string, d: string)
    requires '"' !in v
    ensures ReadOption(OptionOpen + v + OptionMid + d + OptionClose) == Some((v, d))
  {
    assert OptionMid[0] == '"';
    ReadWrappedOf(OptionOpen, v, OptionMid, d, OptionClose);
  }

  /** An option line carries the child's `value` unchanged, except that `-1`
      becomes the empty value, and its `description` unchanged: both can be
      read back from the line, as long as the value has no quote in it
      (nothing is escaped). */
  lemma ReadOptionLine(c: Element)
    requires "value" in c.attrib && "description" in c.attrib
    requires '"' !in c.attrib["value"]
    ensures OptionLine(c).Ok?
    ensures ReadOption(OptionLine(c).value)
         == Some((if c.attrib["value"] == "-1" then "" else c.attrib["value"], c.attrib["description"]))
  {
    ReadOptionOf(OptionValue(c.attrib["value"]), c.attrib["description"]);
  }

  /** Reads one attribute of a tag: `s` starts with `key`, the value runs up
      to the next quote, and the rest of the tag starts at that quote. */
  function ReadAttr(s: string, key: string): Option<(string, string)>
  {
    if !(key <= s) then None
    else
      var rest := s[|key|..];
      var q := FirstIndex(rest, '"');
      if q == |rest| then None else Some((rest[..q], rest[q..]))
  }

  /** Reads four attributes in a row, introduced by the keys `k1` to `k4`,
      and returns them with what follows the fourth one's closing quote. */
  function ReadFour(tag: string, k1: string, k2: string, k3: string, k4: string)
    : Option<(string, string, string, string, string)>
  {
    match ReadAttr(tag, k1)
    case None => None
    case Some((a, r1)) =>
      match ReadAttr(r1, k2)
      case None => None
      case Some((b, r2)) =>
        match ReadAttr(r2, k3)
        case None => None
        case Some((c, r3)) =>
          match ReadAttr(r3, k4)
          case None => None
          case Some((d, rest)) => Some((a, b, c, d, rest))
  }

  /** Reads back the `id`, `name`, `label` and `type` of an opening entity
      tag, and what follows the closing quote of `type`. */
  function ReadOpening(tag: string): Option<(string, string, string, string, string)>
  {
    ReadFour(tag, "<entity id=\"", "\" name=\"", "\" label=\"", "\" type=\"")
  }

  lemma ReadAttrOf(key: string, v: string, tail: string)
    requires '"' !in v && tail != [] && tail[0] == '"'
    ensures ReadAttr(key + v + tail, key) == Some((v, tail))
  {
    var s := key + v + tail;
    assert s[..|key|] == key;
    var rest := s[|key|..];
    assert rest == v + [tail[0]] + tail[1..];
    FirstIndexAfter(v, '"', tail[1..]);
    assert rest[..|v|] == v && rest[|v|..] == tail;
  }

  /** Four quote-free values written after their keys, each key after the
      first starting with the quote that closes the previous value, read
      back in order. */
  lemma ReadFourOf(k1: string, a: string, k2: string, b: string, k3: string, c: string,
                   k4: string, d: string, tail: string)
    requires '"' !in a && '"' !in b && '"' !in c && '"' !in d
    requires k2 != [] && k2[0] == '"' && k3 != [] && k3[0] == '"' && k4 != [] && k4[0] == '"'
    requires tail != [] && tail[0] == '"'
    ensures ReadFour(k1 + a + (k2 + b + (k3 + c + (k4 + d + tail))), k1, k2, k3, k4) == Some((a, b, c, d, tail))
  {
    var r3 := k4 + d + tail;
    var r2 := k3 + c + r3;
    var r1 := k2 + b + r2;
    ReadAttrOf(k1, a, r1);
    ReadAttrOf(k2, b, r2);
    ReadAttrOf(k3, c, r3);
    ReadAttrOf(k4, d, tail);
  }

  lemma NestRight(k1: string, a: string, k2: string, b: string, k3: string, c: string,
                  k4: string, d: string, tail: string)
    ensures k1 + a + k2 + b + k3 + c + k4 + d + tail == k1 + a + (k2 + b + (k3 + c + (k4 + d + tail)))
  {
  }

  /** The opening tag carries the field's `name` (or `None`) as both `id` and
      `name`, its `description` (or `None`) as `label` and the output type as
      `type`: all four read back from the tag when none of them holds a
      quote. After the quote closing `type` comes a space, `desired="true"`
      exactly for a required field and nothing otherwise, and `>`. */
  lemma OpeningReadBack(e: Element, t: string)
    requires "name" in e.attrib ==> '"' !in e.attrib["name"]
    requires "description" in e.attrib ==> '"' !in e.attrib["description"]
    requires '"' !in t
    ensures ReadOpening(Opening(GetValues(e, t)))
         == Some((Render(Attr(e, "name")), Render(Attr(e, "name")), Render(Attr(e, "description")), t,
                  "\" " + (if Required(e) then DesiredTrue else "") + ">"))
  {
    var v := GetValues(e, t);
    var n := Render(Attr(e, "name"));
    var l := Render(Attr(e, "description"));
    var trailer := "\" " + v.desired + ">";
    assert '"' !in n && '"' !in l;
    assert Opening(v) == "<entity id=\"" + n + "\" name=\"" + n + "\" label=\"" + l + "\" type=\"" + t + trailer;
    NestRight("<entity id=\"", n, "\" name=\"", n, "\" label=\"", l, "\" type=\"", t, trailer);
    ReadFourOf("<entity id=\"", n, "\" name=\"", n, "\" label=\"", l, "\" type=\"", t, trailer);
  }

  /** A candidate of a tagged list has that list's kind and one of its elements. */
  lemma TaggedMember(es: seq<Element>, k: FieldKind, c: Candidate)
    requires c in Tagged(es, k)
    ensures c.kind == k && c.element in es
  {
    var i :| 0 <= i < |Tagged(es, k)| && Tagged(es, k)[i] == c;
  }

  lemma TaggedHas(es: seq<Element>, k: FieldKind, x: Element)
    requires x in es
    ensures Candidate(k, x) in Tagged(es, k)
  {
    var i :| 0 <= i < |es| && es[i] == x;
    assert Tagged(es, k)[i] == Candidate(k, x);
  }

  /** A candidate found below `root` sits in the part of `Found(root)` that
      belongs to its kind. */
  lemma FoundMember(root: Element, c: Candidate)
    requires c in Found(root)
    ensures c.element in FindAll(root, Tag(c.kind))
  {
    var k := c.kind;
    var texts := Tagged(FindAll(root, Tag(TextField)), TextField);
    var ints := Tagged(FindAll(root, Tag(IntField)), IntField);
    var dates := Tagged(FindAll(root, Tag(DateField)), DateField);
    var choices := Tagged(FindAll(root, Tag(ChoiceField)), ChoiceField);
    assert Found(root) == texts + ints + dates + choices;
    if c in texts {
      TaggedMember(FindAll(root, Tag(TextField)), TextField, c);
    } else if c in ints {
      TaggedMember(FindAll(root, Tag(IntField)), IntField, c);
    } else if c in dates {
      TaggedMember(FindAll(root, Tag(DateField)), DateField, c);
    } else {
      TaggedMember(FindAll(root, Tag(ChoiceField)), ChoiceField, c);
    }
  }

  /** `find_elements` visits only elements strictly below its start element,
      each with the tag of the kind it is converted as, and never the start
      element itself. It visits as many elements as the four searches find. */
  lemma FoundSound(root: Element)
    ensures |Found(root)| == |FindAll(root, "text")| + |FindAll(root, "int")| + |FindAll(root, "date")| + |FindAll(root, "choice")|
    ensures forall c :: c in Found(root) ==>
      c.element.tag == Tag(c.kind) && c.element in Descendants(root) && c.element != root
  {
    DescendantsExcludeSelf(root);
    forall c | c in Found(root)
      ensures c.element.tag == Tag(c.kind) && c.element in Descendants(root) && c.element != root
    {
      FoundMember(root, c);
    }
  }

  /** Each fragment `find_elements` returns is the conversion of the
      corresponding visited element with its kind's output type, and its
      name is that element's `name` attribute. */
  lemma FieldsEntries(root: Element)
    requires Fields(root).Ok?
    ensures |Fields(root).value| == |Found(root)|
    ensures forall i :: 0 <= i < |Found(root)| ==>
      var c := Found(root)[i];
      Fields(root).value[i] == Fragment(c.element, TypeName(c.kind)).value
      && Fields(root).value[i].name == Attr(c.element, "name")
  {
  }

  /** An element of one kind's search is visited under that kind. */
  lemma FoundHas(root: Element, k: FieldKind, x: Element)
    requires x in FindAll(root, Tag(k))
    ensures Candidate(k, x) in Found(root)
  {
    TaggedHas(FindAll(root, Tag(k)), k, x);
    var texts := Tagged(FindAll(root, Tag(TextField)), TextField);
    var ints := Tagged(FindAll(root, Tag(IntField)), IntField);
    var dates := Tagged(FindAll(root, Tag(DateField)), DateField);
    var choices := Tagged(FindAll(root, Tag(ChoiceField)), ChoiceField);
    assert Found(root) == texts + ints + dates + choices;
  }

  /** The fields of a repeat group are fields of the whole document too:
      restricting the conversion to a group can only drop fields. */
  lemma GroupFieldsWithinDocument(root: Element, g: Element, c: Candidate)
    requires g in FindAll(root, "repeat")
    requires c in Found(g)
    ensures c in Found(root)
  {
    FoundMember(g, c);
    assert g in Descendants(root);
    FindAllWithin(root, g, Tag(c.kind));
    FoundHas(root, c.kind, c.element);
  }
}
