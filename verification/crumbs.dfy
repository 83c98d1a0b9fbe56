/** `crumbs(items)`: the breadcrumb trail. Only the last entry is marked as the current page;
    earlier entries with an `href` become links and the others plain text; every label is
    escaped. The markup around the items is not modelled, only its structure. */
module Breadcrumbs {
  import opened Escape

  /** An entry passed to `crumbs`: a `[label, href]` pair or a bare label. */
  datatype Entry = Pair(text: string, href: string) | Bare(text: string)

  /** A rendered `<li>`: a link, a plain `<span>`, or the `aria-current="page"` item. */
  datatype Item = Link(text: string, href: string) | Text(text: string) | Current(text: string)

  /** The item for one entry. */
  function CrumbItem(e: Entry, isLast: bool): Item {
    var safe := EscapeHtml(e.text);
    if isLast then Current(safe)
    else
      match e
      case Pair(_, href) => if href != "" then Link(safe, href) else Text(safe)
      case Bare(_) => Text(safe)
  }

  /** `crumbs(entries)` */
  function Crumbs(entries: seq<Entry>): (items: seq<Item>)
    ensures |items| == |entries|
    ensures forall i :: 0 <= i < |items| ==> items[i].text == EscapeHtml(entries[i].text)
    ensures forall i :: 0 <= i < |items| ==> (items[i].Current? <==> i == |items| - 1)
    ensures forall i :: 0 <= i < |items| - 1 ==>
      (items[i].Link? <==> entries[i].Pair? && entries[i].href != "")
    ensures forall i :: 0 <= i < |items| && items[i].Link? ==> items[i].href == entries[i].href
  {
    seq(|entries|, i requires 0 <= i < |entries| => CrumbItem(entries[i], i == |entries| - 1))
  }

  /** The trail of a stay's detail page as written: the name is escaped before `crumbs`
      escapes every label again, so it is the trail of the escaped name. */
  function StayDetailTrailAsWritten(name: string): seq<Entry> {
    [Pair("Home", "#/home"), Pair("Places to Stay", "#/stay"), Pair(EscapeHtml(name), "#")]
  }

  /** The trail of a stay's detail page with the name passed as it is. */
  function StayDetailTrail(name: string): seq<Entry> {
    [Pair("Home", "#/home"), Pair("Places to Stay", "#/stay"), Pair(name, "#")]
  }

  /** The trail as written is the corrected trail of the escaped name: only the label of the
      current entry differs. */
  lemma StayDetailTrailAsWrittenEscapesName(name: string)
    ensures StayDetailTrailAsWritten(name) == StayDetailTrail(EscapeHtml(name))
    ensures StayDetailTrailAsWritten(name)[..2] == StayDetailTrail(name)[..2]
    ensures StayDetailTrail(name)[2] == Pair(name, "#")
  {
  }

  /** The corrected trail ends with the stay's name as the current page: decoding the label
      gives back the name exactly. */
  lemma StayDetailTrailShowsName(name: string)
    ensures var items := Crumbs(StayDetailTrail(name));
      |items| == 3 && items[2].Current? && Unescape(items[2].text) == name
  {
    UnescapeEscapeHtml(name);
  }

  /** The trail as written shows the escaped name instead: the reader sees `&amp;` for `&`,
      so the label differs from the name whenever the name holds one of `& < > " '`. */
  lemma StayDetailTrailAsWrittenShowsEscapedName(name: string)
    ensures var items := Crumbs(StayDetailTrailAsWritten(name));
      |items| == 3 && items[2].Current? && Unescape(items[2].text) == EscapeHtml(name)
    ensures var items := Crumbs(StayDetailTrailAsWritten(name));
      (Unescape(items[2].text) == name <==> forall i :: 0 <= i < |name| ==> !IsSpecial(name[i]))
  {
    UnescapeEscapeHtml(EscapeHtml(name));
    EscapeHtmlFixedPoint(name);
  }

  /** `escapeHtml("B&B")` */
  lemma EscapeBAndB()
    ensures EscapeHtml("B&B") == "B&amp;B"
  {
    var s, u, v := "B&B", "&B", "B";
    assert s[0] == 'B' && s[1..] == u;
    assert u[0] == '&' && u[1..] == v;
    assert v[0] == 'B' && v[1..] == [];
    assert EscapeHtml(v) == "B";
    assert EscapeHtml(u) == "&amp;" + "B";
    assert EscapeHtml(s) == "B" + ("&amp;" + "B");
  }

  /** A stay called "B&B" is shown as "B&amp;B" in its trail. */
  lemma StayDetailTrailAsWrittenExample()
    ensures Unescape(Crumbs(StayDetailTrailAsWritten("B&B"))[2].text) == "B&amp;B"
  {
    StayDetailTrailAsWrittenShowsEscapedName("B&B");
    EscapeBAndB();
  }
}
