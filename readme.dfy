/** The README viewer's classifiers (src/components/ReadmeModal.tsx): whether a table holds skill
    icons, which images are badges, when a paragraph is a badge row, the cell alignment class and
    which links wrap badges. */
module ReadmeModal {
  import opened Wrappers
  import opened Text

  /** A node of the parsed HTML tree as the renderer sees it: not an object at all (`null`, a
      number), or an object with a `type`, a `tagName`, an optional `properties.src` and an optional
      `children` array. */
  datatype Node =
    | NotObject
    | Obj(nodeType: string, tagName: string, src: Option<string>, children: Children)

  /** A node's `children`: absent, or an array of nodes. */
  datatype Children = NoChildren | Kids(nodes: seq<Node>)

  /** `node.properties?.src || ''`. */
  function SrcText(src: Option<string>): string {
    if src.Some? then src.value else ""
  }

  /** Whether a node is an `img` element. */
  predicate IsImg(n: Node) {
    n.Obj? && n.nodeType == "element" && n.tagName == "img"
  }

  /** The two icon services a skills table is recognised by. */
  predicate IsSkillIconSrc(src: string) {
    Contains(src, "skillicons.dev") || Contains(src, "techstack-generator.vercel.app")
  }

  // ---------------------------------------------------------------- hasSkillIcons

  /** `hasSkillIcons`: an `img` element answers by its `src` alone; another object answers by
      `children.some(hasSkillIcons)` when it has a children array, and is false otherwise. */
  function HasSkillIcons(n: Node): bool
    decreases n, 1, 0
  {
    match n
    case NotObject => false
    case Obj(t, tag, src, children) =>
      if t == "element" && tag == "img" then IsSkillIconSrc(SrcText(src))
      else if children.Kids? then SomeHasSkillIcons(n, 0)
      else false
  }

  /** `children.some(hasSkillIcons)` over the children of `parent` from index `i` on, in order. */
  function SomeHasSkillIcons(parent: Node, i: nat): bool
    requires parent.Obj? && parent.children.Kids? && i <= |parent.children.nodes|
    decreases parent, 0, |parent.children.nodes| - i
  {
    var cs := parent.children.nodes;
    if i == |cs| then false
    else
      assert cs[i] < parent by { assert cs[i] in cs; }
      HasSkillIcons(cs[i]) || SomeHasSkillIcons(parent, i + 1)
  }

  /** The scan finds a child exactly when some child has skill icons. */
  lemma {:induction false} SomeHasSkillIconsIff(parent: Node, i: nat)
    requires parent.Obj? && parent.children.Kids? && i <= |parent.children.nodes|
    ensures SomeHasSkillIcons(parent, i) <==>
              exists k :: i <= k < |parent.children.nodes| && HasSkillIcons(parent.children.nodes[k])
    decreases |parent.children.nodes| - i
  {
    if i < |parent.children.nodes| {
      SomeHasSkillIconsIff(parent, i + 1);
    }
  }

  /** Non-objects never have skill icons. */
  lemma NotObjectHasNone()
    ensures !HasSkillIcons(NotObject)
  {
  }

  /** An image has skill icons exactly when its `src` names one of the two services; its children,
      whatever they are, are never looked at. */
  lemma ImgDecidesBySrc(src: Option<string>, c1: Children, c2: Children)
    ensures HasSkillIcons(Obj("element", "img", src, c1)) == IsSkillIconSrc(SrcText(src))
    ensures HasSkillIcons(Obj("element", "img", src, c1)) == HasSkillIcons(Obj("element", "img", src, c2))
  {
  }

  /** Any other object has skill icons exactly when one of its children has; with no children array
      it has none. */
  lemma OtherDecidesByChildren(n: Node)
    requires n.Obj? && !IsImg(n)
    ensures n.children.NoChildren? ==> !HasSkillIcons(n)
    ensures n.children.Kids? ==>
              (HasSkillIcons(n) <==> exists k :: 0 <= k < |n.children.nodes| && HasSkillIcons(n.children.nodes[k]))
  {
    if n.children.Kids? {
      SomeHasSkillIconsIff(n, 0);
    }
  }

  /** A skill icon nested in a table row cell is found from the table. */
  lemma NestedSkillIcon(src: string)
    requires IsSkillIconSrc(src)
    ensures var img := Obj("element", "img", Some(src), NoChildren);
      var td := Obj("element", "td", None, Kids([img]));
      var tr := Obj("element", "tr", None, Kids([td]));
      HasSkillIcons(Obj("element", "table", None, Kids([tr])))
  {
    var img := Obj("element", "img", Some(src), NoChildren);
    var td := Obj("element", "td", None, Kids([img]));
    var tr := Obj("element", "tr", None, Kids([td]));
    var table := Obj("element", "table", None, Kids([tr]));
    assert HasSkillIcons(img);
    assert SomeHasSkillIcons(td, 0);
    assert HasSkillIcons(td);
    assert SomeHasSkillIcons(tr, 0);
    assert HasSkillIcons(tr);
    assert SomeHasSkillIcons(table, 0);
  }

  /** The `table` renderer's choice: the centred layout for a skills table. */
  datatype TableLayout = SkillsTable | PlainTable

  function TableLayoutOf(node: Node): (r: TableLayout)
    ensures r == SkillsTable <==> HasSkillIcons(node)
  {
    if HasSkillIcons(node) then SkillsTable else PlainTable
  }

  // ---------------------------------------------------------------- images

  /** The five markers of a badge image. */
  predicate IsBadgeSrc(src: Option<string>) {
    && src.Some?
    && (|| Contains(src.value, "shields.io")
        || Contains(src.value, "custom-icon-badges")
        || Contains(src.value, "readme-typing-svg")
        || Contains(src.value, "skillicons.dev")
        || Contains(src.value, "techstack-generator.vercel.app"))
  }

  /** `props.alt || 'Badge'` for a badge, `props.alt || 'Image'` otherwise. */
  function AltText(alt: Option<string>, src: Option<string>): (r: string)
    ensures alt.Some? && alt.value != "" ==> r == alt.value
    ensures !(alt.Some? && alt.value != "") ==> r == if IsBadgeSrc(src) then "Badge" else "Image"
  {
    if alt.Some? && alt.value != "" then alt.value
    else if IsBadgeSrc(src) then "Badge"
    else "Image"
  }

  /** Every skill icon is also drawn as a badge. */
  lemma SkillIconIsBadge(src: string)
    requires IsSkillIconSrc(src)
    ensures IsBadgeSrc(Some(src))
  {
  }

  /** An image without `src` is never a badge. */
  lemma NoSrcNoBadge(alt: Option<string>)
    ensures !IsBadgeSrc(None)
    ensures AltText(alt, None) == if alt.Some? && alt.value != "" then alt.value else "Image"
  {
  }

  // ---------------------------------------------------------------- paragraphs

  /** A rendered child of a paragraph: one whose `type` is the string `img` (a plain `img` element),
      a text string, or anything else. */
  datatype Child = ImgChild | TextChild(text: string) | OtherChild

  /** `child.type === 'img' || (typeof child === 'string' && child.trim() === '')`. */
  predicate BadgeRowPart(c: Child) {
    c.ImgChild? || (c.TextChild? && Trim(c.text) == "")
  }

  /** `containsOnlyBadges`: `children.every(BadgeRowPart)`, scanned in order. */
  function ContainsOnlyBadges(children: seq<Child>): bool {
    |children| == 0 || (BadgeRowPart(children[0]) && ContainsOnlyBadges(children[1..]))
  }

  /** The scan accepts exactly when every child is an image or blank text, so an empty paragraph is a row. */
  lemma {:induction false} ContainsOnlyBadgesIff(children: seq<Child>)
    ensures ContainsOnlyBadges(children) <==> forall k :: 0 <= k < |children| ==> BadgeRowPart(children[k])
  {
    if |children| > 0 {
      ContainsOnlyBadgesIff(children[1..]);
      assert forall k :: 0 <= k < |children| - 1 ==> children[1..][k] == children[k + 1];
    }
  }

  /** What the `p` renderer draws. */
  datatype ParagraphLayout = BadgeRow | CenteredBlock | PlainParagraph

  /** A badge row first; then `align === 'center'`; otherwise a plain paragraph. */
  function ParagraphLayoutOf(children: seq<Child>, align: Option<string>): (r: ParagraphLayout)
    ensures r == BadgeRow <==> ContainsOnlyBadges(children)
    ensures r == CenteredBlock <==> !ContainsOnlyBadges(children) && align == Some("center")
  {
    if ContainsOnlyBadges(children) then BadgeRow
    else if align == Some("center") then CenteredBlock
    else PlainParagraph
  }

  /** Text with a letter breaks a badge row, whatever surrounds it. */
  lemma WordBreaksBadgeRow(before: seq<Child>, s: string, after: seq<Child>)
    requires !AllWhitespace(s)
    ensures !ContainsOnlyBadges(before + [TextChild(s)] + after)
  {
    var cs := before + [TextChild(s)] + after;
    ContainsOnlyBadgesIff(cs);
    assert cs[|before|] == TextChild(s);
  }

  // ---------------------------------------------------------------- table cells

  /** The class of a `td` or `th`: `{left, center, right}[align || 'left'] || 'text-left'`. */
  function AlignClass(align: Option<string>): (r: string)
    ensures r == "text-left" || r == "text-center" || r == "text-right"
    ensures align == Some("center") <==> r == "text-center"
    ensures align == Some("right") <==> r == "text-right"
  {
    var a := if align.Some? && align.value != "" then align.value else "left";
    if a == "left" then "text-left"
    else if a == "center" then "text-center"
    else if a == "right" then "text-right"
    else "text-left"
  }

  // ---------------------------------------------------------------- links

  /** A direct child that marks a link as a badge link: an `img` element whose `src` names shields.io
      or custom-icon-badges (`properties?.src?.includes`: no `src`, no match). */
  predicate BadgeImage(child: Node) {
    && IsImg(child)
    && child.src.Some?
    && (Contains(child.src.value, "shields.io") || Contains(child.src.value, "custom-icon-badges"))
  }

  /** `node.children?.some(BadgeImage)`, scanned in order. */
  function SomeBadgeImage(cs: seq<Node>): bool {
    |cs| > 0 && (BadgeImage(cs[0]) || SomeBadgeImage(cs[1..]))
  }

  /** `isBadgeLink`: only the link's own children are looked at. */
  function IsBadgeLink(link: Node): bool {
    link.Obj? && link.children.Kids? && SomeBadgeImage(link.children.nodes)
  }

  lemma {:induction false} SomeBadgeImageIff(cs: seq<Node>)
    ensures SomeBadgeImage(cs) <==> exists k :: 0 <= k < |cs| && BadgeImage(cs[k])
  {
    if |cs| > 0 {
      SomeBadgeImageIff(cs[1..]);
      assert forall k :: 0 <= k < |cs| - 1 ==> cs[1..][k] == cs[k + 1];
    }
  }

  /** A badge link is one with a direct child badge image, and such an image is a badge. */
  lemma BadgeLinkFacts(link: Node)
    ensures IsBadgeLink(link) <==>
              (link.Obj? && link.children.Kids? &&
               exists k :: 0 <= k < |link.children.nodes| && BadgeImage(link.children.nodes[k]))
    ensures forall c :: BadgeImage(c) ==> IsBadgeSrc(c.src)
  {
    if link.Obj? && link.children.Kids? {
      SomeBadgeImageIff(link.children.nodes);
    }
  }

  /** A badge image one level down, inside a `span`, does not make a badge link. */
  lemma NestedBadgeIsNotBadgeLink(src: string)
    ensures var img := Obj("element", "img", Some(src), NoChildren);
      !IsBadgeLink(Obj("element", "a", None, Kids([Obj("element", "span", None, Kids([img]))])))
  {
    var img := Obj("element", "img", Some(src), NoChildren);
    var span := Obj("element", "span", None, Kids([img]));
    assert !BadgeImage(span);
    assert [span][1..] == [];
    assert !SomeBadgeImage([span][1..]);
    assert !SomeBadgeImage([span]);
  }
}
