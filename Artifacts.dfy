// The artifact tag parser of src/components/artifacts/utils.ts: model output
// is cut at every `<artifact`, each cut piece is read back as an artifact
// block (a header, a body up to `</artifact>`, and trailing text) or, when
// the header does not have the expected form, as plain text.

module Artifacts {
  import opened Strings
  import opened Seqs

  const OpenTag: string := "<artifact"
  const EndTag: string := "</artifact>"

  /** `Artifact` */
  datatype Artifact = Artifact(id: string, artifactType: string, title: string, content: string, language: Option<string>)

  /** `ContentPart` */
  datatype ContentPart = TextPart(text: string) | ArtifactPart(artifact: Artifact)

  predicate NoQuote(s: string) {
    forall k :: 0 <= k < |s| ==> s[k] != '"'
  }

  predicate NoClose(s: string) {
    forall k :: 0 <= k < |s| ==> s[k] != '>'
  }

  /** A value the pattern `"([^"]+)"` captures. */
  predicate GoodValue(v: string) {
    v != [] && NoQuote(v)
  }

  /** A run the pattern `\s+` consumes. */
  predicate GoodGap(g: string) {
    g != [] && AllSpace(g)
  }

  /** `t` stands in `s` at position `i`. */
  predicate At(s: string, i: nat, t: string) {
    i + |t| <= |s| && s[i..i + |t|] == t
  }

  lemma AtConcat(s: string, i: nat, a: string, b: string)
    requires At(s, i, a) && At(s, i + |a|, b)
    ensures At(s, i, a + b)
  {
    assert s[i..i + |a + b|] == s[i..i + |a|] + s[i + |a|..i + |a| + |b|];
  }

  /** `name="value"` */
  function AttrText(name: string, value: string): string {
    name + ("=\"" + (value + "\""))
  }

  /** One attribute as the header pattern reads it: the white space before it, its name and its value. */
  type Item = (string, string, string)

  function ItemText(it: Item): string {
    it.0 + AttrText(it.1, it.2)
  }

  /** The text of a run of attributes, each after its white space. */
  function ItemsText(items: seq<Item>): string {
    if items == [] then "" else ItemText(items[0]) + ItemsText(items[1..])
  }

  /** Every gap is white space and every value is non-empty and free of quotes. */
  predicate GoodItems(items: seq<Item>) {
    forall k :: 0 <= k < |items| ==> GoodGap(items[k].0) && GoodValue(items[k].2)
  }

  /**
   * One way a header can be laid out: the white space before each attribute,
   * the captured values (the language with its white space, when present),
   * and whatever stands between the title and the `>`.
   */
  datatype Header = Header(
    idGap: string, id: string, typeGap: string, artifactType: string,
    language: Option<(string, string)>, titleGap: string, title: string, extra: string)

  /** The attributes of a header in the order the pattern reads them. */
  function HeaderItems(h: Header): seq<Item> {
    [(h.idGap, "id", h.id), (h.typeGap, "type", h.artifactType)]
    + (if h.language.Some? then [(h.language.value.0, "language", h.language.value.1)] else [])
    + [(h.titleGap, "title", h.title)]
  }

  /**
   * The text of a header, as the pattern
   * `<artifact\s+id="…"\s+type="…"(?:\s+language="…")?\s+title="…"[^>]*>` reads it.
   */
  function HeaderText(h: Header): string {
    OpenTag + (ItemsText(HeaderItems(h)) + (h.extra + ">"))
  }

  /** A header the pattern accepts: gaps of white space, non-empty values without quotes, no `>` before the end. */
  predicate GoodHeader(h: Header) {
    && GoodGap(h.idGap) && GoodValue(h.id) && GoodGap(h.typeGap) && GoodValue(h.artifactType)
    && (h.language.Some? ==> GoodGap(h.language.value.0) && GoodValue(h.language.value.1))
    && GoodGap(h.titleGap) && GoodValue(h.title) && NoClose(h.extra)
  }

  /** The end of the white space starting at `i`. */
  function SkipSpaces(s: string, i: nat): (j: nat)
    requires i <= |s|
    ensures i <= j <= |s|
    decreases |s| - i
  {
    if i < |s| && IsSpace(s[i]) then SkipSpaces(s, i + 1) else i
  }

  /** What `SkipSpaces` passes over is white space, and it stops at the end or at a character that is not. */
  lemma {:induction false} SkipSpacesSound(s: string, i: nat)
    requires i <= |s|
    ensures var j := SkipSpaces(s, i);
      AllSpace(s[i..j]) && (j == |s| || !IsSpace(s[j]))
    decreases |s| - i
  {
    if i < |s| && IsSpace(s[i]) {
      var j := SkipSpaces(s, i + 1);
      SkipSpacesSound(s, i + 1);
      assert s[i..j] == [s[i]] + s[i + 1..j];
    }
  }

  /** A non-empty run of white space at `i`, as `\s+` takes it: the run and where it ends. */
  function Gap(s: string, i: nat): (r: Option<(string, nat)>)
    requires i <= |s|
    ensures r.Some? ==> r.value.1 <= |s|
  {
    var j := SkipSpaces(s, i);
    if j == i then None else Some((s[i..j], j))
  }

  /** The first quote at or after `i`, or the end of the string. */
  function QuoteAt(s: string, i: nat): (j: nat)
    requires i <= |s|
    ensures i <= j <= |s|
    decreases |s| - i
  {
    if i == |s| || s[i] == '"' then i else QuoteAt(s, i + 1)
  }

  /** What `QuoteAt` passes over holds no quote, and it stops at the end or at a quote. */
  lemma {:induction false} QuoteAtSound(s: string, i: nat)
    requires i <= |s|
    ensures var j := QuoteAt(s, i);
      NoQuote(s[i..j]) && (j < |s| ==> s[j] == '"')
    decreases |s| - i
  {
    if i < |s| && s[i] != '"' {
      var j := QuoteAt(s, i + 1);
      QuoteAtSound(s, i + 1);
      assert s[i..j] == [s[i]] + s[i + 1..j];
    }
  }

  /** `name="value"` at `i`: the value and the position after the closing quote. */
  function Attribute(s: string, i: nat, name: string): (r: Option<(string, nat)>)
    requires i <= |s|
    ensures r.Some? ==> r.value.1 <= |s|
  {
    var open := name + "=\"";
    if !(i + |open| <= |s| && s[i..i + |open|] == open) then None
    else
      var v := i + |open|;
      var j := QuoteAt(s, v);
      if j == v || j == |s| then None else Some((s[v..j], j + 1))
  }

  /** One `\s+name="…"` group of the header pattern; an optional one may be missing. */
  datatype Field = Field(name: string, optional: bool)

  /** The groups of the header pattern after `<artifact`, in order. */
  const HeaderFields: seq<Field> := [Field("id", false), Field("type", false), Field("language", true), Field("title", false)]

  /** How many of the groups are optional. */
  function Optionals(fields: seq<Field>): nat {
    if fields == [] then 0 else (if fields[0].optional then 1 else 0) + Optionals(fields[1..])
  }

  /** `\s+name="value"` at `p`: the attribute read and where it ends. */
  function GapAttribute(c: string, p: nat, name: string): (r: Option<(Item, nat)>)
    requires p <= |c|
    ensures r.Some? ==> p <= r.value.1 <= |c|
  {
    match Gap(c, p)
    case None => None
    case Some((gap, q)) =>
      match Attribute(c, q, name)
      case None => None
      case Some((value, e)) => Some(((gap, name, value), e))
  }

  /**
   * The groups `fields` in turn from `p`: the attributes read and where they
   * end. An optional group is tried first and skipped when it does not match
   * there. Once it has matched, the pattern would give it up again only if
   * what follows fails, and then the next group cannot match where it stood
   * either (after the white space comes `language=`, not `title=`), so the
   * first choice is the only one that can succeed.
   */
  function Attributes(c: string, p: nat, fields: seq<Field>): (r: Option<(seq<Item>, nat)>)
    requires p <= |c|
    ensures r.Some? ==> |fields| <= |r.value.0| + Optionals(fields) && |r.value.0| <= |fields| && p <= r.value.1 <= |c|
    decreases |fields|
  {
    if fields == [] then Some(([], p))
    else
      match GapAttribute(c, p, fields[0].name)
      case Some((it, q)) =>
        (match Attributes(c, q, fields[1..])
         case None => None
         case Some((items, e)) => Some(([it] + items, e)))
      case None =>
        if fields[0].optional then Attributes(c, p, fields[1..]) else None
  }

  /** The attributes read name the groups in order, leaving out only optional ones. */
  predicate Fits(items: seq<Item>, fields: seq<Field>)
    decreases |fields|
  {
    if fields == [] then items == []
    else
      || (items != [] && items[0].1 == fields[0].name && Fits(items[1..], fields[1..]))
      || (fields[0].optional && Fits(items, fields[1..]))
  }

  /** The header built from the attributes the pattern read. */
  function MakeHeader(items: seq<Item>, extra: string): Header
    requires 3 <= |items| <= 4
  {
    Header(items[0].0, items[0].2, items[1].0, items[1].2,
      if |items| == 4 then Some((items[2].0, items[2].2)) else None,
      items[|items| - 1].0, items[|items| - 1].2, extra)
  }

  /**
   * `fullChunk.match(headerRegex)`: the header and its length. The chunk
   * starts with `<artifact` and holds no other occurrence of it, so a match
   * can only start at 0; `[^>]*>` ends at the first `>` after the title.
   */
  function MatchHeader(c: string): (r: Option<(Header, nat)>)
    ensures r.Some? ==> r.value.1 <= |c|
  {
    if !(9 <= |c| && c[..9] == OpenTag) then None
    else
      match Attributes(c, 9, HeaderFields)
      case None => None
      case Some((items, q)) =>
        match IndexOf(c, ">", q)
        case None => None
        case Some(e) => Some((MakeHeader(items, c[q..e]), e + 1))
  }

  // What each stage reads is the text of what it returns.

  lemma GapSound(s: string, i: nat)
    requires i <= |s|
    ensures var r := Gap(s, i); r.Some? ==> GoodGap(r.value.0) && At(s, i, r.value.0) && r.value.1 == i + |r.value.0|
  {
    SkipSpacesSound(s, i);
  }

  lemma AttributeSound(s: string, i: nat, name: string)
    requires i <= |s|
    ensures var r := Attribute(s, i, name);
      r.Some? ==> GoodValue(r.value.0) && At(s, i, AttrText(name, r.value.0)) && r.value.1 == i + |AttrText(name, r.value.0)|
  {
    var open := name + "=\"";
    if i + |open| <= |s| && s[i..i + |open|] == open {
      var v := i + |open|;
      var j := QuoteAt(s, v);
      QuoteAtSound(s, v);
      if j != v && j != |s| {
        assert At(s, v, s[v..j] + "\"") by {
          assert s[v..j + 1] == s[v..j] + [s[j]];
        }
        AttrAt(s, i, name, s[v..j]);
      }
    }
  }

  /** An attribute's opening `name="` followed by its value and the closing quote is its text. */
  lemma AttrAt(s: string, i: nat, name: string, value: string)
    requires At(s, i, name + "=\"") && At(s, i + |name| + 2, value + "\"")
    ensures At(s, i, AttrText(name, value))
  {
    AtSplit(s, i, name, "=\"");
    AtConcat(s, i + |name|, "=\"", value + "\"");
    AtConcat(s, i, name, "=\"" + (value + "\""));
  }

  lemma GapAttributeSound(c: string, p: nat, name: string)
    requires p <= |c|
    ensures var r := GapAttribute(c, p, name);
      r.Some? ==>
        && r.value.0.1 == name && GoodGap(r.value.0.0) && GoodValue(r.value.0.2)
        && At(c, p, ItemText(r.value.0)) && r.value.1 == p + |ItemText(r.value.0)|
  {
    GapSound(c, p);
    match Gap(c, p)
    case None =>
    case Some((gap, q)) =>
      AttributeSound(c, q, name);
      match Attribute(c, q, name)
      case None =>
      case Some((value, e)) =>
        AtConcat(c, p, gap, AttrText(name, value));
  }

  /** One attribute read in front of the rest extends what the rest reads. */
  /** The attributes read name the groups, leaving out only optional ones, and are well formed. */
  lemma {:induction false} AttributesFit(c: string, p: nat, fields: seq<Field>)
    requires p <= |c|
    ensures var r := Attributes(c, p, fields);
      r.Some? ==> Fits(r.value.0, fields) && GoodItems(r.value.0)
    decreases |fields|
  {
    if fields != [] {
      GapAttributeSound(c, p, fields[0].name);
      var g := GapAttribute(c, p, fields[0].name);
      if g.Some? {
        AttributesFit(c, g.value.1, fields[1..]);
        var rest := Attributes(c, g.value.1, fields[1..]);
        if rest.Some? {
          var items := [g.value.0] + rest.value.0;
          assert items[1..] == rest.value.0;
        }
      } else if fields[0].optional {
        AttributesFit(c, p, fields[1..]);
      }
    }
  }

  /** The attributes read are the text from `p` to where the reading ends. */
  lemma {:induction false} AttributesAt(c: string, p: nat, fields: seq<Field>)
    requires p <= |c|
    ensures var r := Attributes(c, p, fields);
      r.Some? ==> At(c, p, ItemsText(r.value.0)) && r.value.1 == p + |ItemsText(r.value.0)|
    decreases |fields|
  {
    if fields != [] {
      GapAttributeSound(c, p, fields[0].name);
      var g := GapAttribute(c, p, fields[0].name);
      if g.Some? {
        AttributesAt(c, g.value.1, fields[1..]);
        var rest := Attributes(c, g.value.1, fields[1..]);
        if rest.Some? {
          ItemsTextCons(c, p, g.value.0, rest.value.0);
        }
      } else if fields[0].optional {
        AttributesAt(c, p, fields[1..]);
      }
    }
  }

  /** One attribute's text followed by the text of the rest is the text of them all. */
  lemma ItemsTextCons(c: string, p: nat, it: Item, items: seq<Item>)
    requires At(c, p, ItemText(it)) && At(c, p + |ItemText(it)|, ItemsText(items))
    ensures At(c, p, ItemsText([it] + items)) && |ItemsText([it] + items)| == |ItemText(it)| + |ItemsText(items)|
  {
    assert ([it] + items)[1..] == items;
    AtConcat(c, p, ItemText(it), ItemsText(items));
  }

  lemma {:induction false} ItemsTextAppend(a: seq<Item>, b: seq<Item>)
    ensures ItemsText(a + b) == ItemsText(a) + ItemsText(b)
  {
    if a == [] {
      assert a + b == b;
    } else {
      assert (a + b)[1..] == a[1..] + b;
      ItemsTextAppend(a[1..], b);
    }
  }

  /** `[^>]*>` from `q`: the text up to the first `>` holds no `>`, and is followed by one. */
  lemma ExtraSound(c: string, q: nat)
    requires q <= |c|
    ensures var r := IndexOf(c, ">", q);
      r.Some? ==> NoClose(c[q..r.value]) && At(c, q, c[q..r.value] + ">")
  {
    IndexOfSound(c, ">", q);
    if IndexOf(c, ">", q).Some? {
      var e := IndexOf(c, ">", q).value;
      var extra := c[q..e];
      forall k | 0 <= k < |extra| ensures extra[k] != '>' {
        assert !OccursAt(c, ">", q + k);
        assert c[q + k..q + k + 1] == [extra[k]];
      }
      assert c[q..e + 1] == c[q..e] + c[e..e + 1];
    }
  }

  /** The attributes a header holds: `id`, `type`, perhaps `language`, and `title`, in that order. */
  predicate HeaderShape(items: seq<Item>) {
    && 3 <= |items| <= 4 && items[0].1 == "id" && items[1].1 == "type" && items[|items| - 1].1 == "title"
    && (|items| == 4 ==> items[2].1 == "language")
  }

  /** The attributes the header groups read have the shape of a header. */
  lemma FitsHeader(items: seq<Item>)
    requires Fits(items, HeaderFields)
    ensures HeaderShape(items)
  {
    var f := HeaderFields;
    assert f[1..] == [Field("type", false), Field("language", true), Field("title", false)];
    assert f[1..][1..] == [Field("language", true), Field("title", false)];
    assert f[1..][1..][1..] == [Field("title", false)];
    assert f[1..][1..][1..][1..] == [];
    assert items != [] && items[0].1 == "id";
    var i1 := items[1..];
    assert i1 != [] && i1[0].1 == "type";
    var i2 := i1[1..];
    if i2 != [] && i2[0].1 == "language" {
      var i3 := i2[1..];
      assert i3 != [] && i3[0].1 == "title" && i3[1..] == [];
    } else {
      assert i2 != [] && i2[0].1 == "title" && i2[1..] == [];
    }
  }

  /** The header built from attributes of that shape lists those attributes back, and is well formed. */
  lemma MakeHeaderItems(items: seq<Item>, extra: string)
    requires HeaderShape(items) && GoodItems(items) && NoClose(extra)
    ensures HeaderItems(MakeHeader(items, extra)) == items
    ensures GoodHeader(MakeHeader(items, extra))
  {
    assert GoodGap(items[|items| - 1].0) && GoodValue(items[|items| - 1].2);
  }

  /** The stages a successful `MatchHeader` went through. */
  lemma MatchHeaderStages(c: string) returns (items: seq<Item>, q: nat, e: nat)
    requires MatchHeader(c).Some?
    ensures 9 <= |c| && items == Attributes(c, 9, HeaderFields).value.0 && q == Attributes(c, 9, HeaderFields).value.1
    ensures Attributes(c, 9, HeaderFields).Some? && IndexOf(c, ">", q).Some? && e == IndexOf(c, ">", q).value
    ensures 3 <= |items| <= 4 && q <= e < |c|
    ensures MatchHeader(c).value.0 == MakeHeader(items, c[q..e]) && MatchHeader(c).value.1 == e + 1
  {
    items, q := Attributes(c, 9, HeaderFields).value.0, Attributes(c, 9, HeaderFields).value.1;
    e := IndexOf(c, ">", q).value;
  }

  /** The converse of `MatchHeaderStages`: the stages' results determine what `MatchHeader` returns. */
  lemma MatchHeaderOfStages(c: string, items: seq<Item>, q: nat, e: nat)
    requires 9 <= |c| && c[..9] == OpenTag
    requires Attributes(c, 9, HeaderFields).Some? && Attributes(c, 9, HeaderFields).value.0 == items
    requires Attributes(c, 9, HeaderFields).value.1 == q
    requires IndexOf(c, ">", q).Some? && IndexOf(c, ">", q).value == e
    ensures 3 <= |items| <= 4 && q <= e
    ensures MatchHeader(c).Some? && MatchHeader(c).value.0 == MakeHeader(items, c[q..e]) && MatchHeader(c).value.1 == e + 1
  {
  }

  /** The attributes and the first `>` after them make a header of the expected form standing at 0. */
  lemma HeaderFromStages(c: string, items: seq<Item>, q: nat, e: nat)
    requires At(c, 0, OpenTag) && At(c, 9, ItemsText(items)) && q == 9 + |ItemsText(items)|
    requires Fits(items, HeaderFields) && GoodItems(items)
    requires q <= e < |c| && NoClose(c[q..e]) && At(c, q, c[q..e] + ">")
    ensures 3 <= |items| <= 4
    ensures var h := MakeHeader(items, c[q..e]);
      GoodHeader(h) && At(c, 0, HeaderText(h)) && e + 1 == |HeaderText(h)|
  {
    var extra := c[q..e];
    FitsHeader(items);
    MakeHeaderItems(items, extra);
    AtConcat(c, 9, ItemsText(items), extra + ">");
    AtConcat(c, 0, OpenTag, ItemsText(items) + (extra + ">"));
  }

  lemma ItemsSound(c: string, items: seq<Item>, q: nat)
    requires 9 <= |c| && Attributes(c, 9, HeaderFields).Some?
    requires items == Attributes(c, 9, HeaderFields).value.0 && q == Attributes(c, 9, HeaderFields).value.1
    ensures Fits(items, HeaderFields) && GoodItems(items) && At(c, 9, ItemsText(items)) && q == 9 + |ItemsText(items)|
  {
    AttributesFit(c, 9, HeaderFields);
    AttributesAt(c, 9, HeaderFields);
  }

  lemma OpensAt(c: string)
    requires MatchHeader(c).Some?
    ensures At(c, 0, OpenTag)
  {
    assert c[0..9] == c[..9];
  }

  /** What `MatchHeader` recognises is a header of the expected form, standing at the start of the chunk. */
  lemma MatchHeaderSound(c: string)
    ensures var r := MatchHeader(c);
      r.Some? ==> GoodHeader(r.value.0) && At(c, 0, HeaderText(r.value.0)) && r.value.1 == |HeaderText(r.value.0)|
  {
    if MatchHeader(c).Some? {
      var items, q, e := MatchHeaderStages(c);
      ItemsSound(c, items, q);
      ExtraSound(c, q);
      OpensAt(c);
      HeaderFromStages(c, items, q, e);
    }
  }

  // Conversely, a header of the expected form is read back as itself.

  lemma AtSplit(s: string, i: nat, a: string, b: string)
    requires At(s, i, a + b)
    ensures At(s, i, a) && At(s, i + |a|, b)
  {
    assert s[i..i + |a|] == (a + b)[..|a|];
    assert s[i + |a|..i + |a| + |b|] == (a + b)[|a|..];
  }

  lemma {:induction false} SkipSpacesComplete(s: string, i: nat, g: string)
    requires At(s, i, g) && AllSpace(g) && (i + |g| == |s| || !IsSpace(s[i + |g|]))
    ensures SkipSpaces(s, i) == i + |g|
    decreases |g|
  {
    if g != [] {
      assert s[i] == g[0];
      assert s[i + 1..i + 1 + |g[1..]|] == g[1..];
      SkipSpacesComplete(s, i + 1, g[1..]);
    }
  }

  lemma {:induction false} QuoteAtComplete(s: string, i: nat, v: string)
    requires At(s, i, v) && NoQuote(v) && i + |v| < |s| && s[i + |v|] == '"'
    ensures QuoteAt(s, i) == i + |v|
    decreases |v|
  {
    if v != [] {
      assert s[i] == v[0];
      assert s[i + 1..i + 1 + |v[1..]|] == v[1..];
      QuoteAtComplete(s, i + 1, v[1..]);
    }
  }

  lemma AttributeComplete(s: string, i: nat, name: string, value: string)
    requires At(s, i, AttrText(name, value)) && GoodValue(value)
    ensures Attribute(s, i, name).Some?
    ensures Attribute(s, i, name).value.0 == value && Attribute(s, i, name).value.1 == i + |AttrText(name, value)|
  {
    var open := name + "=\"";
    assert AttrText(name, value) == open + (value + "\"");
    AtSplit(s, i, open, value + "\"");
    AtSplit(s, i + |open|, value, "\"");
    assert s[i + |open| + |value|] == s[i + |open| + |value|..i + |open| + |value| + 1][0];
    QuoteAtComplete(s, i + |open|, value);
  }

  /** A name the pattern spells out: it does not start with white space. */
  predicate GoodName(name: string) {
    name != [] && !IsSpace(name[0])
  }

  lemma GapAttributeComplete(c: string, p: nat, it: Item)
    requires At(c, p, ItemText(it)) && GoodGap(it.0) && GoodValue(it.2) && GoodName(it.1)
    ensures GapAttribute(c, p, it.1).Some?
    ensures GapAttribute(c, p, it.1).value.0 == it && GapAttribute(c, p, it.1).value.1 == p + |ItemText(it)|
  {
    AtSplit(c, p, it.0, AttrText(it.1, it.2));
    var q := p + |it.0|;
    assert c[q] == c[q..q + |AttrText(it.1, it.2)|][0] == it.1[0];
    SkipSpacesComplete(c, p, it.0);
    AttributeComplete(c, q, it.1, it.2);
  }

  /** Where an attribute with another first letter stands, the group for `name` does not match. */
  lemma GapAttributeMismatch(c: string, p: nat, it: Item, name: string)
    requires At(c, p, ItemText(it)) && GoodGap(it.0) && GoodName(it.1) && name != [] && name[0] != it.1[0]
    ensures GapAttribute(c, p, name).None?
  {
    AtSplit(c, p, it.0, AttrText(it.1, it.2));
    var q := p + |it.0|;
    assert c[q] == c[q..q + |AttrText(it.1, it.2)|][0] == it.1[0];
    SkipSpacesComplete(c, p, it.0);
  }

  /**
   * The attributes, in the order the groups name them: an optional group is
   * missing only where the next attribute starts with another letter.
   */
  predicate Reads(items: seq<Item>, fields: seq<Field>)
    decreases |fields|
  {
    if fields == [] then items == []
    else if items != [] && items[0].1 == fields[0].name then Reads(items[1..], fields[1..])
    else
      && fields[0].optional && items != [] && items[0].1 != [] && fields[0].name != []
      && items[0].1[0] != fields[0].name[0] && Reads(items, fields[1..])
  }

  predicate GoodNames(items: seq<Item>) {
    forall k :: 0 <= k < |items| ==> GoodName(items[k].1)
  }

  lemma {:induction false} AttributesComplete(c: string, p: nat, items: seq<Item>, fields: seq<Field>)
    requires p <= |c| && At(c, p, ItemsText(items)) && GoodItems(items) && GoodNames(items) && Reads(items, fields)
    ensures Attributes(c, p, fields).Some?
    ensures Attributes(c, p, fields).value.0 == items && Attributes(c, p, fields).value.1 == p + |ItemsText(items)|
    decreases |fields|
  {
    if fields != [] {
      var it := items[0];
      AtSplit(c, p, ItemText(it), ItemsText(items[1..]));
      if it.1 == fields[0].name {
        GapAttributeComplete(c, p, it);
        var q := p + |ItemText(it)|;
        var tail := items[1..];
        GoodTail(items, tail);
        AttributesComplete(c, q, tail, fields[1..]);
        AttributesTake(c, p, fields, it, q, tail, q + |ItemsText(tail)|);
      } else {
        GapAttributeMismatch(c, p, it, fields[0].name);
        AttributesComplete(c, p, items, fields[1..]);
      }
    }
  }

  /** The items after the first are as good as all of them, and the first put back in front gives all of them. */
  lemma GoodTail(items: seq<Item>, tail: seq<Item>)
    requires items != [] && tail == items[1..] && GoodItems(items) && GoodNames(items)
    ensures GoodItems(tail) && GoodNames(tail) && [items[0]] + tail == items
  {
    assert forall k :: 0 <= k < |tail| ==> tail[k] == items[k + 1];
  }

  /** One step of `Attributes` where the first field is read. */
  lemma AttributesTake(c: string, p: nat, fields: seq<Field>, it: Item, q: nat, items: seq<Item>, e: nat)
    requires p <= |c| && fields != []
    requires GapAttribute(c, p, fields[0].name).Some?
    requires GapAttribute(c, p, fields[0].name).value.0 == it && GapAttribute(c, p, fields[0].name).value.1 == q
    requires Attributes(c, q, fields[1..]).Some?
    requires Attributes(c, q, fields[1..]).value.0 == items && Attributes(c, q, fields[1..]).value.1 == e
    ensures Attributes(c, p, fields).Some?
    ensures Attributes(c, p, fields).value.0 == [it] + items && Attributes(c, p, fields).value.1 == e
  {
  }

  lemma HeaderReads(h: Header)
    requires GoodHeader(h)
    ensures Reads(HeaderItems(h), HeaderFields) && GoodItems(HeaderItems(h)) && GoodNames(HeaderItems(h))
  {
    var title: Item := (h.titleGap, "title", h.title);
    var tail := if h.language.Some? then [(h.language.value.0, "language", h.language.value.1), title] else [title];
    var items: seq<Item> := [(h.idGap, "id", h.id), (h.typeGap, "type", h.artifactType)] + tail;
    assert HeaderItems(h) == items;
    var lastFields := [Field("language", true), Field("title", false)];
    assert Reads([title], lastFields[1..]) by {
      assert [title][1..] == [];
    }
    assert Reads(tail, lastFields) by {
      if h.language.Some? {
        assert tail[1..] == [title];
      }
    }
    assert Reads(items[1..], HeaderFields[1..]) by {
      assert items[1..][1..] == tail;
      assert HeaderFields[1..][1..] == lastFields;
    }
    assert items[1..] == [(h.typeGap, "type", h.artifactType)] + tail;
    forall k | 0 <= k < |items| ensures GoodName(items[k].1) && GoodGap(items[k].0) && GoodValue(items[k].2) {
      if k == |items| - 1 {
        assert items[k] == title;
      } else if k >= 2 {
        assert items[k] == (h.language.value.0, "language", h.language.value.1);
      }
    }
  }

  /** Where the pieces of a header stand in a text that starts with it. */
  lemma HeaderLayout(c: string, h: Header)
    requires At(c, 0, HeaderText(h))
    ensures var q := 9 + |ItemsText(HeaderItems(h))|;
      && 9 <= |c| && c[..9] == OpenTag && At(c, 9, ItemsText(HeaderItems(h)))
      && At(c, q, h.extra) && At(c, q + |h.extra|, ">") && q + |h.extra| + 1 == |HeaderText(h)|
  {
    var items := HeaderItems(h);
    AtSplit(c, 0, OpenTag, ItemsText(items) + (h.extra + ">"));
    AtSplit(c, 9, ItemsText(items), h.extra + ">");
    AtSplit(c, 9 + |ItemsText(items)|, h.extra, ">");
    assert c[..9] == c[0..9];
  }

  /** Building a header from its own attributes gives it back. */
  lemma MakeHeaderInverse(h: Header)
    ensures 3 <= |HeaderItems(h)| <= 4 && MakeHeader(HeaderItems(h), h.extra) == h
  {
  }

  /** The attributes of a header of the expected form are read back as they were written. */
  lemma HeaderAttributesComplete(c: string, h: Header)
    requires GoodHeader(h) && At(c, 0, HeaderText(h))
    ensures Attributes(c, 9, HeaderFields).Some? && Attributes(c, 9, HeaderFields).value.0 == HeaderItems(h)
    ensures Attributes(c, 9, HeaderFields).value.1 == 9 + |ItemsText(HeaderItems(h))|
  {
    HeaderLayout(c, h);
    HeaderReads(h);
    AttributesComplete(c, 9, HeaderItems(h), HeaderFields);
  }

  /** The `>` closing a header of the expected form is the first one after its attributes. */
  lemma HeaderCloseComplete(c: string, h: Header)
    requires GoodHeader(h) && At(c, 0, HeaderText(h))
    ensures var q := 9 + |ItemsText(HeaderItems(h))|;
      IndexOf(c, ">", q).Some? && IndexOf(c, ">", q).value == q + |h.extra| && c[q..q + |h.extra|] == h.extra
  {
    HeaderLayout(c, h);
    ExtraComplete(c, 9 + |ItemsText(HeaderItems(h))|, h.extra);
  }

  /** Where a text starts with a header of the expected form, `MatchHeader` reads back that header. */
  lemma MatchHeaderAt(c: string, h: Header)
    requires GoodHeader(h) && At(c, 0, HeaderText(h))
    ensures MatchHeader(c).Some? && MatchHeader(c).value.0 == h && MatchHeader(c).value.1 == |HeaderText(h)|
  {
    var items := HeaderItems(h);
    var q := 9 + |ItemsText(items)|;
    HeaderLayout(c, h);
    HeaderAttributesComplete(c, h);
    HeaderCloseComplete(c, h);
    MatchHeaderOfStages(c, items, q, q + |h.extra|);
    MakeHeaderInverse(h);
  }

  /** A header of the expected form at the start of a chunk is read back as itself, whatever follows it. */
  lemma MatchHeaderComplete(h: Header, rest: string)
    requires GoodHeader(h)
    ensures var c := HeaderText(h) + rest;
      MatchHeader(c).Some? && MatchHeader(c).value.0 == h && MatchHeader(c).value.1 == |HeaderText(h)|
  {
    var c := HeaderText(h) + rest;
    assert c[0..|HeaderText(h)|] == HeaderText(h);
    MatchHeaderAt(c, h);
  }

  lemma ExtraComplete(c: string, q: nat, extra: string)
    requires At(c, q, extra) && NoClose(extra) && At(c, q + |extra|, ">")
    ensures IndexOf(c, ">", q).Some? && IndexOf(c, ">", q).value == q + |extra|
    decreases |extra|
  {
    assert c[q + |extra|..q + |extra| + 1] == ">";
    if extra != [] {
      assert c[q..q + 1] == [extra[0]];
      assert c[q + 1..q + 1 + |extra[1..]|] == extra[1..];
      ExtraComplete(c, q + 1, extra[1..]);
    }
  }

  /** The text after a header: up to the first `</artifact>` and after it, or all of it and nothing. */
  function CutAtEndTag(body: string): (string, string) {
    match IndexOf(body, EndTag, 0)
    case Some(close) => (body[..close], body[close + |EndTag|..])
    case None => (body, "")
  }

  /** The `language` of an artifact read from a header. */
  function LanguageOf(h: Header): Option<string> {
    if h.language.Some? then Some(h.language.value.1) else None
  }

  /** Every part of one chunk after the first: its artifact (if the header matches) and the trailing text, or the whole chunk as text. */
  function ChunkParts(chunk: string): (r: seq<ContentPart>)
    ensures 1 <= |r| <= 2
    ensures forall k :: 1 <= k < |r| ==> r[k].TextPart?
  {
    var full := OpenTag + chunk;
    match MatchHeader(full)
    case None => [TextPart(full)]
    case Some((h, len)) =>
      var (content, trailing) := CutAtEndTag(full[len..]);
      [ArtifactPart(Artifact(h.id, h.artifactType, h.title, Trim(content), LanguageOf(h)))]
      + (if trailing != "" then [TextPart(trailing)] else [])
  }

  /** A chunk that does not start with a header of the expected form is kept whole as text, `<artifact` included. */
  lemma ChunkWithoutHeader(c: string)
    requires forall h: Header :: GoodHeader(h) ==> !At(OpenTag + c, 0, HeaderText(h))
    ensures ChunkParts(c) == [TextPart(OpenTag + c)]
  {
    MatchHeaderSound(OpenTag + c);
  }

  /** Text before the first `<artifact`, kept only when non-empty. */
  function LeadParts(lead: string): (r: seq<ContentPart>)
    ensures lead == "" ==> r == []
    ensures lead != "" ==> r == [TextPart(lead)]
  {
    if lead != "" then [TextPart(lead)] else []
  }

  /** The parts of the chunks after the first, chunk by chunk. */
  function ChunksParts(chunks: seq<string>): seq<ContentPart> {
    FlatMap(chunks, ChunkParts)
  }

  function Chunks(raw: string): (r: seq<string>)
    ensures |r| >= 1
  {
    Split(raw, OpenTag)
  }

  /** What `parseContent` returns. */
  function Parsed(raw: string): seq<ContentPart> {
    var chunks := Chunks(raw);
    LeadParts(chunks[0]) + ChunksParts(chunks[1..])
  }

  /** One round of `parseContent`'s loop: the parts pushed for the chunk after one `<artifact`. */
  method ReadChunk(chunk: string) returns (parts: seq<ContentPart>)
    ensures parts == ChunkParts(chunk)
  {
    var fullChunk := OpenTag + chunk;
    var headerMatch := MatchHeader(fullChunk);
    if headerMatch.None? {
      return [TextPart(fullChunk)];
    }
    var (h, len) := headerMatch.value;
    var artifactContent := fullChunk[len..];
    var trailingText := "";
    var endTagIndex := IndexOf(artifactContent, EndTag, 0);
    if endTagIndex.Some? {
      trailingText := artifactContent[endTagIndex.value + |EndTag|..];
      artifactContent := artifactContent[..endTagIndex.value];
    }
    parts := [ArtifactPart(Artifact(h.id, h.artifactType, h.title, Trim(artifactContent), LanguageOf(h)))];
    if trailingText != "" {
      parts := parts + [TextPart(trailingText)];
    }
  }

  /** `parseContent`: the text before the first tag, then each chunk in turn. */
  method ParseContent(rawContent: string) returns (parts: seq<ContentPart>)
    ensures parts == Parsed(rawContent)
  {
    parts := [];
    var chunks := Split(rawContent, OpenTag);
    if chunks[0] != "" {
      parts := parts + [TextPart(chunks[0])];
    }
    for i := 1 to |chunks|
      invariant parts == LeadParts(chunks[0]) + ChunksParts(chunks[1..i])
    {
      var chunkParts := ReadChunk(chunks[i]);
      FlatMapStep(LeadParts(chunks[0]), chunks, i, ChunkParts);
      parts := parts + chunkParts;
    }
    assert chunks[1..|chunks|] == chunks[1..];
  }

  /**
   * A chunk that starts with a header of the expected form yields that
   * header's artifact, holding the trimmed text up to the first
   * `</artifact>`, then the text after that tag when there is any.
   */
  lemma ChunkOfHeader(h: Header, rest: string)
    requires GoodHeader(h)
    ensures var (content, trailing) := CutAtEndTag(rest);
      ChunkParts(HeaderText(h)[9..] + rest)
      == [ArtifactPart(Artifact(h.id, h.artifactType, h.title, Trim(content), LanguageOf(h)))]
         + (if trailing != "" then [TextPart(trailing)] else [])
  {
    var full := HeaderText(h) + rest;
    assert OpenTag + (HeaderText(h)[9..] + rest) == full;
    MatchHeaderComplete(h, rest);
    assert full[|HeaderText(h)|..] == rest;
  }

  /**
   * The round trip of one artifact: written as a header, a body without
   * an end tag, the end tag and some trailing text, it is read back as
   * the artifact with its body trimmed, followed by the trailing text.
   */
  lemma ChunkRoundTrip(h: Header, body: string, trailing: string)
    requires GoodHeader(h)
    requires IndexOf(body + EndTag, EndTag, 0).Some? && IndexOf(body + EndTag, EndTag, 0).value == |body|
    ensures ChunkParts(HeaderText(h)[9..] + (body + EndTag + trailing))
      == [ArtifactPart(Artifact(h.id, h.artifactType, h.title, Trim(body), LanguageOf(h)))]
         + (if trailing != "" then [TextPart(trailing)] else [])
  {
    CutBody(body, trailing);
    ChunkOfHeader(h, body + EndTag + trailing);
  }

  /** A body whose first end tag is the one after it is cut at that tag. */
  lemma CutBody(body: string, trailing: string)
    requires IndexOf(body + EndTag, EndTag, 0).Some? && IndexOf(body + EndTag, EndTag, 0).value == |body|
    ensures CutAtEndTag(body + EndTag + trailing) == (body, trailing)
  {
    var rest := body + EndTag + trailing;
    assert rest == (body + EndTag) + trailing;
    IndexOfExtend(body + EndTag, trailing, EndTag, 0);
    assert rest[..|body|] == body;
    assert rest[|body| + |EndTag|..] == trailing;
  }

  /** The artifacts among the parts, in order (`filter` on `type === "artifact"`, then `map`). */
  function ArtifactsOf(parts: seq<ContentPart>): seq<Artifact> {
    if parts == [] then []
    else
      var last := parts[|parts| - 1];
      ArtifactsOf(parts[..|parts| - 1]) + (if last.ArtifactPart? then [last.artifact] else [])
  }

  lemma ArtifactsOfAppend(parts: seq<ContentPart>, more: seq<ContentPart>)
    ensures ArtifactsOf(parts + more) == ArtifactsOf(parts) + ArtifactsOf(more)
    decreases |more|
  {
    if more == [] {
      assert parts + more == parts;
    } else {
      var init := more[..|more| - 1];
      assert parts + more == (parts + init) + [more[|more| - 1]];
      assert (parts + more)[..|parts + more| - 1] == parts + init;
      ArtifactsOfAppend(parts, init);
    }
  }

  /** The artifacts found are exactly those of the artifact parts. */
  lemma {:induction false} ArtifactsOfMembers(parts: seq<ContentPart>)
    ensures forall a :: a in ArtifactsOf(parts) <==> ArtifactPart(a) in parts
    decreases |parts|
  {
    if parts != [] {
      var init := parts[..|parts| - 1];
      ArtifactsOfMembers(init);
      assert parts == init + [parts[|parts| - 1]];
    }
  }

  /** `parseArtifacts` */
  function ParseArtifacts(content: string): seq<Artifact> {
    ArtifactsOf(Parsed(content))
  }

  /** A chunk yields at most one artifact, and only one whose header has the expected form. */
  lemma ChunkPartsArtifact(c: string)
    ensures |ArtifactsOf(ChunkParts(c))| <= 1
    ensures forall a :: a in ArtifactsOf(ChunkParts(c)) ==>
      GoodValue(a.id) && GoodValue(a.artifactType) && GoodValue(a.title)
  {
    var full := OpenTag + c;
    MatchHeaderSound(full);
    var ps := ChunkParts(c);
    if |ps| == 2 {
      assert ps == [ps[0]] + [ps[1]];
      ArtifactsOfAppend([ps[0]], [ps[1]]);
      assert [ps[0]][..0] == [];
      assert ArtifactsOf([ps[1]]) == [];
    } else {
      assert ps[..0] == [];
    }
  }

  /** Each chunk holds at most one artifact, and every artifact has a non-empty id, type and title. */
  lemma {:induction false} ChunksArtifacts(chunks: seq<string>)
    ensures |ArtifactsOf(ChunksParts(chunks))| <= |chunks|
    ensures forall a :: a in ArtifactsOf(ChunksParts(chunks)) ==>
      GoodValue(a.id) && GoodValue(a.artifactType) && GoodValue(a.title)
  {
    if chunks != [] {
      var init := chunks[..|chunks| - 1];
      var c := chunks[|chunks| - 1];
      ChunksArtifacts(init);
      ChunkPartsArtifact(c);
      assert ChunksParts(chunks) == ChunksParts(init) + ChunkParts(c);
      ArtifactsOfAppend(ChunksParts(init), ChunkParts(c));
    }
  }

  /**
   * `parseArtifacts` finds at most one artifact per `<artifact` tag the
   * split cut at, each with a non-empty id, type and title.
   */
  lemma ParseArtifactsBound(content: string)
    ensures |ParseArtifacts(content)| <= |Chunks(content)| - 1
    ensures forall a :: a in ParseArtifacts(content) ==>
      GoodValue(a.id) && GoodValue(a.artifactType) && GoodValue(a.title)
  {
    var chunks := Chunks(content);
    ChunksArtifacts(chunks[1..]);
    ArtifactsOfAppend(LeadParts(chunks[0]), ChunksParts(chunks[1..]));
    if chunks[0] != "" {
      assert [TextPart(chunks[0])][..0] == [];
    }
  }

  /** Text without any `<artifact` tag is one text part, or nothing when empty. */
  lemma PlainText(raw: string)
    requires !Contains(raw, OpenTag)
    ensures Parsed(raw) == if raw == "" then [] else [TextPart(raw)]
  {
    ContainsIffIndexOf(raw, OpenTag);
    assert Chunks(raw) == [raw];
  }
}
