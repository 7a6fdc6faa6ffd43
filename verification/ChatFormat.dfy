/** Breaking chat messages into the lines of a console. */
module ChatFormat {
  import opened Characters
  import opened Wrappers

  /** A message; the name is empty when the server sent it. */
  datatype ChatLine = ChatLine(name: string, text: string)

  datatype Fragment = Fragment(text: string, column: nat, weblink: string)

  datatype FormattedLine = FormattedLine(fragments: seq<Fragment>, first: bool)

  /** The column of a fragment that is not placed yet and shall end its line. */
  const MARK := 0x7FFF_FFFF

  // ----- cutting the text into fragments -----

  function Min(a: nat, b: nat): nat {
    if a < b then a else b
  }

  predicate StartsAt(s: string, p: string, i: nat) {
    i + |p| <= |s| && s[i..i + |p|] == p
  }

  /** The first place of `p` in `s` from `i` on. */
  function Find(s: string, p: string, i: nat): (r: Option<nat>)
    requires i <= |s|
    ensures r.Some? ==> i <= r.value <= |s| && StartsAt(s, p, r.value)
    ensures forall j: nat :: i <= j < (if r.Some? then r.value else |s| + 1) ==> !StartsAt(s, p, j)
    decreases |s| - i
  {
    if StartsAt(s, p, i) then Some(i) else if i == |s| then None else Find(s, p, i + 1)
  }

  /** How far away the next web link is; a secure link anywhere in the rest comes first. */
  function LinkDistance(text: string, inPos: nat, links: bool): (r: Option<nat>)
    requires inPos <= |text|
    ensures r.Some? ==> StartsAt(text, "http://", inPos + r.value) || StartsAt(text, "https://", inPos + r.value)
  {
    if !links then None else
      var secure := Find(text, "https://", inPos);
      var found := if secure.Some? then secure else Find(text, "http://", inPos);
      if found.Some? then Some(found.value - inPos) else None
  }

  predicate EndsLink(c: char) {
    Space(c) || c == '\'' || c == '"' || c == ';'
  }

  function LinkEnd(text: string, inPos: nat, n: nat): (r: nat)
    requires inPos + n <= |text|
    ensures n <= r && inPos + r <= |text|
    ensures inPos + n < |text| && !EndsLink(text[inPos + n]) ==> r > n
    ensures forall j :: inPos + n <= j < inPos + r ==> !EndsLink(text[j])
    ensures inPos + r < |text| ==> EndsLink(text[inPos + r])
    decreases |text| - n
  {
    if inPos + n < |text| && !EndsLink(text[inPos + n]) then LinkEnd(text, inPos, n + 1) else n
  }

  /** The length of the link: up to a blank or quote, without one trailing comma or full stop. */
  function LinkLength(text: string, inPos: nat): (r: nat)
    requires inPos + 6 <= |text|
    ensures 5 <= r && inPos + r <= |text|
    ensures StartsAt(text, "http://", inPos) || StartsAt(text, "https://", inPos) ==> r >= 7
  {
    assert StartsAt(text, "http://", inPos) ==> text[inPos + 6] == text[inPos..inPos + 7][6] == '/';
    assert StartsAt(text, "https://", inPos) ==> text[inPos + 6] == text[inPos..inPos + 8][6] == '/';
    var n := LinkEnd(text, inPos, 6);
    if text[inPos + n - 1] == ',' || text[inPos + n - 1] == '.' then n - 1 else n
  }

  /** The place of the last blank among `n` characters, or 0. */
  function LastSpace(text: string, inPos: nat, n: nat): (r: nat)
    requires inPos + n <= |text|
    ensures r < n || r == 0
    ensures r > 0 ==> Space(text[inPos + r])
    ensures forall j :: inPos + r < j < inPos + n ==> !Space(text[j])
  {
    if n == 0 then 0 else if Space(text[inPos + n - 1]) then n - 1 else LastSpace(text, inPos, n - 1)
  }

  /** The next piece of the text: its length, whether the line ends after it, whether it is a link. */
  datatype Piece = Piece(length: nat, mark: bool, link: bool)

  function NextPiece(text: string, inPos: nat, room: nat, links: bool): (p: Piece)
    requires inPos <= |text| && room >= 1
    ensures inPos + p.length <= |text|
    ensures inPos < |text| ==> p.length > 0
    ensures !p.mark ==> 0 < p.length < room
    ensures !p.link ==> p.length <= room
  {
    var left := |text| - inPos;
    var http := LinkDistance(text, inPos, links);
    if http.None? || http.value >= room then
      var grab := Min(left, room);
      var space := LastSpace(text, inPos, grab);
      Piece(if space != 0 && grab < left then space + 1 else grab, true, false)
    else if http.value == 0 then
      var n := LinkLength(text, inPos);
      Piece(n, n >= room, true)
    else
      Piece(http.value, false, false)
  }

  /** A piece takes all there is if no link begins in the room; if that does not fit, it ends after the last
      blank that does, or fills the room if there is none behind its first character. */
  lemma PieceBreaksAtBlank(text: string, inPos: nat, room: nat, links: bool)
    requires inPos < |text| && room >= 1
    requires LinkDistance(text, inPos, links).None? || LinkDistance(text, inPos, links).value >= room
    ensures var p, left := NextPiece(text, inPos, room, links), |text| - inPos;
            var end := inPos + p.length;
            && p.mark && !p.link
            && (left <= room ==> end == |text|)
            && (left > room && (exists j :: inPos < j < inPos + room && Space(text[j])) ==>
                inPos + 1 < end <= inPos + room && Space(text[end - 1]) && forall j :: end <= j < inPos + room ==> !Space(text[j]))
            && (left > room && (forall j :: inPos < j < inPos + room ==> !Space(text[j])) ==> end == inPos + room)
  {
    var grab := Min(|text| - inPos, room);
    var space := LastSpace(text, inPos, grab);
    hide LastSpace, Space, LinkDistance;
  }

  function FragmentOf(text: string, inPos: nat, p: Piece): (f: Fragment)
    requires inPos + p.length <= |text|
    ensures f.text == text[inPos..inPos + p.length]
  {
    var t := text[inPos..inPos + p.length];
    Fragment(t, if p.mark then MARK else 0, if p.link then t else "")
  }

  /** The fragments for the rest of a line. */
  function Produce(text: string, inPos: nat, room: nat, links: bool): (r: seq<Fragment>)
    requires inPos <= |text| && room >= 1
    decreases |text| - inPos
  {
    var p := NextPiece(text, inPos, room, links);
    [FragmentOf(text, inPos, p)] + if p.mark then [] else Produce(text, inPos + p.length, room - p.length, links)
  }

  /** How far into the text they reach. */
  function ProducedTo(text: string, inPos: nat, room: nat, links: bool): (end: nat)
    requires inPos <= |text| && room >= 1
    ensures inPos <= end <= |text| && (inPos < |text| ==> inPos < end)
    decreases |text| - inPos
  {
    var p := NextPiece(text, inPos, room, links);
    if p.mark then inPos + p.length else ProducedTo(text, inPos + p.length, room - p.length, links)
  }

  // ----- laying fragments out -----

  /** The finished lines, the line being filled, and its next free column. */
  datatype Layout = Layout(lines: seq<FormattedLine>, next: FormattedLine, column: nat)

  function EndLine(s: Layout, hanging: nat): Layout {
    Layout(s.lines + [s.next], FormattedLine([], false), hanging)
  }

  function Place(s: Layout, frag: Fragment): Layout {
    s.(next := s.next.(fragments := s.next.fragments + [frag.(column := s.column)]), column := s.column + |frag.text|)
  }

  /** Places the first fragment, or as much of it as fits. */
  function LayoutStep(s: Layout, frags: seq<Fragment>, cols: nat, hanging: nat): (r: (Layout, seq<Fragment>))
    requires frags != [] && s.column < cols && hanging < cols
    ensures r.0.column < cols
    ensures |r.1| < |frags| || (|r.1| == |frags| && |r.1[0].text| < |frags[0].text|)
  {
    var frag, space := frags[0], cols - s.column;
    var fits := |frag.text| <= space;
    var s1 := Place(s, if fits then frag else frag.(text := frag.text[..space]));
    var rest := if fits then frags[1..] else [frag.(text := frag.text[space..], column := 0)] + frags[1..];
    (if s1.column == cols || frag.column == MARK then EndLine(s1, hanging) else s1, rest)
  }

  function LayoutAll(s: Layout, frags: seq<Fragment>, cols: nat, hanging: nat): (r: Layout)
    requires s.column < cols && hanging < cols
    ensures r.column < cols
    decreases |frags|, if frags == [] then 0 else |frags[0].text|
  {
    if frags == [] then s else
      var (s1, rest) := LayoutStep(s, frags, cols, hanging);
      LayoutAll(s1, rest, cols, hanging)
  }

  function Rest(s: Layout, frags: seq<Fragment>, text: string, inPos: nat, cols: nat, hanging: nat, links: bool): (r: Layout)
    requires s.column < cols && hanging < cols && inPos <= |text|
    decreases |text| - inPos, frags
  {
    var s1 := LayoutAll(s, frags, cols, hanging);
    if inPos == |text| then s1 else
      Rest(s1, Produce(text, inPos, cols - s1.column, links), text, ProducedTo(text, inPos, cols - s1.column, links),
           cols, hanging, links)
  }

  function NameFragments(name: string): seq<Fragment> {
    if name == "" then [] else [Fragment("<", 0, ""), Fragment(name, 0, ""), Fragment("> ", 0, "")]
  }

  function Hanging(name: string, cols: nat): nat {
    if name == "" then 0 else if |name| + 3 <= cols / 2 then |name| + 3 else 2
  }

  /** The lines of one message on a console of `cols` columns. */
  function Format(line: ChatLine, cols: nat, links: bool): seq<FormattedLine> {
    var hanging := Hanging(line.name, cols);
    if hanging >= cols then [] else
      var s := Rest(Layout([], FormattedLine([], true), 0), NameFragments(line.name), line.text, 0, cols, hanging, links);
      if s.lines == [] || s.next.fragments != [] then s.lines + [s.next] else s.lines
  }

  // ----- nothing is lost -----

  function Flat(frags: seq<Fragment>): string {
    if frags == [] then "" else Flat(frags[..|frags| - 1]) + frags[|frags| - 1].text
  }

  function FlatLines(lines: seq<FormattedLine>): string {
    if lines == [] then "" else FlatLines(lines[..|lines| - 1]) + Flat(lines[|lines| - 1].fragments)
  }

  function NameShown(name: string): string {
    if name == "" then "" else "<" + name + "> "
  }

  /** The message as it is shown. */
  function Shown(line: ChatLine): string {
    NameShown(line.name) + line.text
  }

  lemma Assoc(a: string, b: string, c: string)
    ensures a + (b + c) == a + b + c
  {
  }

  lemma {:induction false} FlatSplit(a: seq<Fragment>, b: seq<Fragment>)
    ensures Flat(a + b) == Flat(a) + Flat(b)
  {
    if b == [] {
      assert a + b == a;
    } else {
      FlatSplit(a, b[..|b| - 1]);
      assert (a + b)[..|a + b| - 1] == a + b[..|b| - 1];
      Assoc(Flat(a), Flat(b[..|b| - 1]), b[|b| - 1].text);
    }
  }

  lemma FlatOne(frag: Fragment)
    ensures Flat([frag]) == frag.text
  {
    assert [frag][..0] == [];
  }

  // ----- every character keeps the link it is in -----

  /** A character that is shown, and the link that it belongs to, if any. */
  type Ink = (char, string)

  ghost function Linked(text: string, link: string): (r: seq<Ink>)
    ensures |r| == |text| && forall i :: 0 <= i < |text| ==> r[i] == (text[i], link)
  {
    seq(|text|, i requires 0 <= i < |text| => (text[i], link))
  }

  ghost function Inks(frags: seq<Fragment>): seq<Ink> {
    if frags == [] then [] else Inks(frags[..|frags| - 1]) + Linked(frags[|frags| - 1].text, frags[|frags| - 1].weblink)
  }

  ghost function InkLines(lines: seq<FormattedLine>): seq<Ink> {
    if lines == [] then [] else InkLines(lines[..|lines| - 1]) + Inks(lines[|lines| - 1].fragments)
  }

  ghost function Written(s: Layout): seq<Ink> {
    InkLines(s.lines) + Inks(s.next.fragments)
  }

  /** The text from one place on, with its links. */
  ghost function Annotated(text: string, from: nat, links: bool): (r: seq<Ink>)
    requires from <= |text|
    decreases |text| - from
  {
    var next := LinkDistance(text, from, links);
    if next.None? then Linked(text[from..], "") else
      var i := from + next.value;
      var link := text[i..i + LinkLength(text, i)];
      Linked(text[from..i], "") + (Linked(link, link) + Annotated(text, i + |link|, links))
  }

  lemma AnnotatedIs(text: string, from: nat, links: bool)
    requires from <= |text|
    ensures var next := LinkDistance(text, from, links);
            && (next.None? ==> Annotated(text, from, links) == Linked(text[from..], ""))
            && (next.Some? ==>
                var i := from + next.value;
                var link := text[i..i + LinkLength(text, i)];
                && |link| > 0
                && Annotated(text, from, links) == Linked(text[from..i], "") + (Linked(link, link) + Annotated(text, i + |link|, links)))
  {
    hide LinkDistance, LinkLength;
  }

  ghost predicate Reads(text: string, i: nat, word: string) {
    i + |word| <= |text| && text[i..i + |word|] == word
  }

  /** There is a word in the text between the two places. */
  ghost predicate Occurs(text: string, from: nat, to: nat, word: string) {
    exists i: nat :: from <= i < to && Reads(text, i, word)
  }

  /** The next link is the first that is secure, if there is one, and the first of the others if there is
      none. */
  lemma NextLinkIs(text: string, from: nat)
    requires from <= |text|
    ensures var next := LinkDistance(text, from, true);
            if next.None? then !Occurs(text, from, |text|, "http://") && !Occurs(text, from, |text|, "https://")
            else var i := from + next.value;
                 || (Reads(text, i, "https://") && !Occurs(text, from, i, "https://"))
                 || (!Occurs(text, from, |text|, "https://") && Reads(text, i, "http://") && !Occurs(text, from, i, "http://"))
    ensures LinkDistance(text, from, false) == None
  {
    forall i: nat, word
      ensures Reads(text, i, word) == StartsAt(text, word, i)
    {
    }
    hide StartsAt, Reads;
  }

  ghost predicate NoneEnds(s: string) {
    forall k :: 0 <= k < |s| ==> s[k] != ' ' && !(9 <= s[k] as int <= 13) && s[k] != '\'' && s[k] != '"' && s[k] != ';'
  }

  /** A link goes on to the next blank, quote or semicolon, or to the end of the text, but a comma or a
      full stop there does not belong to it. */
  lemma LinkIs(text: string, i: nat) returns (end: nat)
    requires Reads(text, i, "http://") || Reads(text, i, "https://")
    ensures i + 6 <= end <= |text| && NoneEnds(text[i + 6..end]) && (end < |text| ==> !NoneEnds(text[end..end + 1]))
    ensures i + LinkLength(text, i) == if text[end - 1] == ',' || text[end - 1] == '.' then end - 1 else end
  {
    end := i + LinkEnd(text, i, 6);
    assert end < |text| ==> EndsLink(text[end..end + 1][0]);
  }

  lemma InkAssoc(a: seq<Ink>, b: seq<Ink>, c: seq<Ink>)
    ensures a + (b + c) == a + b + c
  {
  }

  lemma LinkedParts(text: string, a: nat, b: nat, c: nat, link: string)
    requires a <= b <= c <= |text|
    ensures Linked(text[a..b], link) + Linked(text[b..c], link) == Linked(text[a..c], link)
  {
  }

  lemma {:induction false} InkSplit(a: seq<Fragment>, b: seq<Fragment>)
    ensures Inks(a + b) == Inks(a) + Inks(b)
  {
    if b == [] {
      assert a + b == a;
    } else {
      InkSplit(a, b[..|b| - 1]);
      assert (a + b)[..|a + b| - 1] == a + b[..|b| - 1];
      InkAssoc(Inks(a), Inks(b[..|b| - 1]), Linked(b[|b| - 1].text, b[|b| - 1].weblink));
    }
  }

  lemma InkOne(frag: Fragment)
    ensures Inks([frag]) == Linked(frag.text, frag.weblink)
  {
    assert [frag][..0] == [];
  }

  lemma PlaceWrites(s: Layout, frag: Fragment)
    ensures Written(Place(s, frag)) == Written(s) + Linked(frag.text, frag.weblink)
  {
    var f := frag.(column := s.column);
    InkSplit(s.next.fragments, [f]);
    InkOne(f);
  }

  lemma EndLineWrites(s: Layout, hanging: nat)
    ensures Written(EndLine(s, hanging)) == Written(s)
  {
    assert (s.lines + [s.next])[..|s.lines|] == s.lines;
  }

  lemma {:induction false} LayoutWritesAll(s: Layout, frags: seq<Fragment>, cols: nat, hanging: nat)
    requires s.column < cols && hanging < cols
    ensures Written(LayoutAll(s, frags, cols, hanging)) == Written(s) + Inks(frags)
    decreases |frags|, if frags == [] then 0 else |frags[0].text|
  {
    if frags != [] {
      var (s1, rest) := LayoutStep(s, frags, cols, hanging);
      StepWrites(s, frags, cols, hanging);
      LayoutWritesAll(s1, rest, cols, hanging);
    }
  }

  lemma StepWrites(s: Layout, frags: seq<Fragment>, cols: nat, hanging: nat)
    requires frags != [] && s.column < cols && hanging < cols
    ensures var (s1, rest) := LayoutStep(s, frags, cols, hanging); Written(s1) + Inks(rest) == Written(s) + Inks(frags)
  {
    hide Written, Inks, Place, EndLine, Linked;
    var frag, space, tail := frags[0], cols - s.column, frags[1..];
    assert frags == [frag] + tail;
    InkSplit([frag], tail);
    InkOne(frag);
    if |frag.text| <= space {
      PlaceWrites(s, frag);
      EndLineWrites(Place(s, frag), hanging);
      InkAssoc(Written(s), Linked(frag.text, frag.weblink), Inks(tail));
    } else {
      var here, left := frag.(text := frag.text[..space]), frag.(text := frag.text[space..], column := 0);
      PlaceWrites(s, here);
      EndLineWrites(Place(s, here), hanging);
      InkSplit([left], tail);
      InkOne(left);
      CutInTwo(frag.text, space, frag.weblink);
      InkAssoc(Written(s), Linked(here.text, frag.weblink), Linked(left.text, frag.weblink) + Inks(tail));
      InkAssoc(Linked(here.text, frag.weblink), Linked(left.text, frag.weblink), Inks(tail));
    }
  }

  lemma CutInTwo(text: string, n: nat, link: string)
    requires n <= |text|
    ensures Linked(text, link) == Linked(text[..n], link) + Linked(text[n..], link)
  {
  }

  /** Up to the next link nothing belongs to one. */
  lemma SkipPlain(text: string, a: nat, b: nat, links: bool)
    requires a <= b <= |text| && (LinkDistance(text, a, links).Some? ==> b <= a + LinkDistance(text, a, links).value)
    ensures Annotated(text, a, links) == Linked(text[a..b], "") + Annotated(text, b, links)
  {
    hide Linked, LinkLength, LinkDistance, Annotated;
    SameLinkAhead(text, a, b, links);
    AnnotatedIs(text, a, links);
    AnnotatedIs(text, b, links);
    var next := LinkDistance(text, a, links);
    if next.None? {
      LinkedParts(text, a, b, |text|, "");
      assert text[a..] == text[a..|text|] && text[b..] == text[b..|text|];
    } else {
      var i := a + next.value;
      var link := text[i..i + LinkLength(text, i)];
      LinkedParts(text, a, b, i, "");
      InkAssoc(Linked(text[a..b], ""), Linked(text[b..i], ""), Linked(link, link) + Annotated(text, i + |link|, links));
    }
  }

  lemma SameLinkAhead(text: string, a: nat, b: nat, links: bool)
    requires a <= b <= |text| && (LinkDistance(text, a, links).Some? ==> b <= a + LinkDistance(text, a, links).value)
    ensures var near, far := LinkDistance(text, a, links), LinkDistance(text, b, links);
            near.Some? == far.Some? && (near.Some? ==> a + near.value == b + far.value)
  {
    FoundLater(text, "https://", a, b);
    FoundLater(text, "http://", a, b);
    hide Find, StartsAt;
  }

  lemma FoundLater(s: string, p: string, a: nat, b: nat)
    requires a <= b <= |s|
    ensures Find(s, p, a).None? ==> Find(s, p, b).None?
    ensures Find(s, p, a).Some? && b <= Find(s, p, a).value ==> Find(s, p, b) == Find(s, p, a)
  {
    hide StartsAt;
    var near, far := Find(s, p, a), Find(s, p, b);
    assert far.Some? ==> StartsAt(s, p, far.value);
    assert near.Some? ==> StartsAt(s, p, near.value);
  }

  /** A piece of the text shows what it is of. */
  lemma PieceWrites(text: string, inPos: nat, room: nat, links: bool)
    requires inPos <= |text| && room >= 1
    ensures var p := NextPiece(text, inPos, room, links);
            var frag := FragmentOf(text, inPos, p);
            Annotated(text, inPos, links) == Linked(frag.text, frag.weblink) + Annotated(text, inPos + p.length, links)
  {
    hide Linked, LinkLength, LinkDistance, Annotated, NextPiece;
    var p := NextPiece(text, inPos, room, links);
    PieceKinds(text, inPos, room, links);
    if p.link {
      AtLink(text, inPos, links);
    } else {
      SkipPlain(text, inPos, inPos + p.length, links);
    }
  }

  /** A link is a piece of its own; a piece before one in the room ends where the link begins. */
  lemma PieceKinds(text: string, inPos: nat, room: nat, links: bool)
    requires inPos <= |text| && room >= 1
    ensures var p, next := NextPiece(text, inPos, room, links), LinkDistance(text, inPos, links);
            && (p.link <==> next == Some(0)) && (p.link ==> p.length == LinkLength(text, inPos) && (p.mark <==> p.length >= room))
            && (next.Some? && !p.link ==> p.length <= next.value)
            && (next.Some? && 0 < next.value < room ==> p.length == next.value && !p.mark)
  {
    hide LinkLength, LinkDistance, LastSpace;
  }

  lemma AtLink(text: string, i: nat, links: bool)
    requires i <= |text| && LinkDistance(text, i, links) == Some(0)
    ensures var link := text[i..i + LinkLength(text, i)];
            Annotated(text, i, links) == Linked(link, link) + Annotated(text, i + |link|, links)
  {
    hide LinkLength, LinkDistance, Annotated;
    AnnotatedIs(text, i, links);
    assert Linked(text[i..i], "") == [];
  }

  lemma {:induction false} ProduceWrites(text: string, inPos: nat, room: nat, links: bool)
    requires inPos <= |text| && room >= 1
    ensures Inks(Produce(text, inPos, room, links)) + Annotated(text, ProducedTo(text, inPos, room, links), links) ==
            Annotated(text, inPos, links)
    decreases |text| - inPos
  {
    hide NextPiece, Inks, Produce, ProducedTo, FragmentOf, Annotated, Linked;
    var p := NextPiece(text, inPos, room, links);
    var next, frag := inPos + p.length, FragmentOf(text, inPos, p);
    ProduceUnfolds(text, inPos, room, links);
    PieceWrites(text, inPos, room, links);
    InkOne(frag);
    if !p.mark {
      var frags := Produce(text, next, room - p.length, links);
      ProduceWrites(text, next, room - p.length, links);
      InkSplit([frag], frags);
      InkAssoc(Linked(frag.text, frag.weblink), Inks(frags), Annotated(text, ProducedTo(text, next, room - p.length, links), links));
    }
  }

  lemma NothingLeft(text: string, links: bool)
    ensures Annotated(text, |text|, links) == []
  {
    hide LinkLength;
  }

  lemma {:induction false} RestWritesAll(s: Layout, frags: seq<Fragment>, text: string, inPos: nat, cols: nat, hanging: nat, links: bool)
    requires s.column < cols && hanging < cols && inPos <= |text|
    ensures Written(Rest(s, frags, text, inPos, cols, hanging, links)) == Written(s) + Inks(frags) + Annotated(text, inPos, links)
    decreases |text| - inPos
  {
    hide LayoutAll, Produce, ProducedTo, Written, Inks, Annotated, Rest;
    LayoutWritesAll(s, frags, cols, hanging);
    var s1 := LayoutAll(s, frags, cols, hanging);
    if inPos < |text| {
      var room := cols - s1.column;
      var frags1, inPos1 := Produce(text, inPos, room, links), ProducedTo(text, inPos, room, links);
      RestGoesOn(s, frags, text, inPos, cols, hanging, links);
      ProduceWrites(text, inPos, room, links);
      RestWritesAll(s1, frags1, text, inPos1, cols, hanging, links);
      InkAssoc(Written(s1), Inks(frags1), Annotated(text, inPos1, links));
    } else {
      RestGoesOn(s, frags, text, inPos, cols, hanging, links);
      NothingLeft(text, links);
    }
  }

  lemma RestGoesOn(s: Layout, frags: seq<Fragment>, text: string, inPos: nat, cols: nat, hanging: nat, links: bool)
    requires s.column < cols && hanging < cols && inPos <= |text|
    ensures var s1 := LayoutAll(s, frags, cols, hanging);
            Rest(s, frags, text, inPos, cols, hanging, links) ==
            if inPos == |text| then s1
            else Rest(s1, Produce(text, inPos, cols - s1.column, links), text, ProducedTo(text, inPos, cols - s1.column, links),
                      cols, hanging, links)
  {
    hide LayoutAll, Produce, ProducedTo;
  }

  /** There is room for the message: two columns are too few for a name. */
  predicate HasRoom(line: ChatLine, cols: nat) {
    if line.name == "" then cols > 0 else cols > 2
  }

  /** The lines of a message show the name and the text, and every character belongs to the link that it
      is in and to no other. */
  lemma FormatShowsLinks(line: ChatLine, cols: nat, links: bool)
    requires HasRoom(line, cols)
    ensures InkLines(Format(line, cols, links)) == Linked(NameShown(line.name), "") + Annotated(line.text, 0, links)
  {
    hide Rest, Annotated, Linked, Written, InkLines, Inks, NameShown, NameFragments;
    var hanging := Hanging(line.name, cols);
    var start, frags := Layout([], FormattedLine([], true), 0), NameFragments(line.name);
    RestWritesAll(start, frags, line.text, 0, cols, hanging, links);
    NameWrites(line.name);
    NothingYet();
    Finishes(Rest(start, frags, line.text, 0, cols, hanging, links));
  }

  lemma NothingYet()
    ensures Written(Layout([], FormattedLine([], true), 0)) == []
  {
  }

  lemma Finishes(s: Layout)
    ensures InkLines(s.lines + [s.next]) == Written(s)
    ensures s.next.fragments == [] ==> InkLines(s.lines) == Written(s)
  {
    assert (s.lines + [s.next])[..|s.lines|] == s.lines;
  }

  lemma LinkedJoins(a: string, b: string, link: string)
    ensures Linked(a, link) + Linked(b, link) == Linked(a + b, link)
  {
  }

  lemma NameWrites(name: string)
    ensures Inks(NameFragments(name)) == Linked(NameShown(name), "")
  {
    hide Linked, Inks;
    if name == "" {
      NothingNamed();
    } else {
      var a, b, c := Fragment("<", 0, ""), Fragment(name, 0, ""), Fragment("> ", 0, "");
      InkOne(a);
      InkSplit([a], [b]);
      InkOne(b);
      InkSplit([a, b], [c]);
      InkOne(c);
      assert [a] + [b] == [a, b] && [a, b] + [c] == NameFragments(name);
      LinkedJoins("<", name, "");
      LinkedJoins("<" + name, "> ", "");
    }
  }

  lemma NothingNamed()
    ensures Inks([]) == Linked("", "")
  {
  }

  /** The characters without their links. */
  ghost function Text(inks: seq<Ink>): (r: string)
    ensures |r| == |inks| && forall i :: 0 <= i < |inks| ==> r[i] == inks[i].0
  {
    seq(|inks|, i requires 0 <= i < |inks| => inks[i].0)
  }

  lemma TextOfLinked(text: string, link: string)
    ensures Text(Linked(text, link)) == text
  {
  }

  lemma TextJoins(a: seq<Ink>, b: seq<Ink>)
    ensures Text(a + b) == Text(a) + Text(b)
  {
  }

  lemma {:induction false} TextOfInks(frags: seq<Fragment>)
    ensures Text(Inks(frags)) == Flat(frags)
  {
    if frags != [] {
      var front, last := frags[..|frags| - 1], frags[|frags| - 1];
      hide Text, Linked;
      TextOfInks(front);
      TextJoins(Inks(front), Linked(last.text, last.weblink));
      TextOfLinked(last.text, last.weblink);
    }
  }

  lemma {:induction false} TextOfLines(lines: seq<FormattedLine>)
    ensures Text(InkLines(lines)) == FlatLines(lines)
  {
    if lines != [] {
      var front, last := lines[..|lines| - 1], lines[|lines| - 1];
      hide Text, Linked;
      TextOfLines(front);
      TextOfInks(last.fragments);
      TextJoins(InkLines(front), Inks(last.fragments));
    }
  }

  lemma {:induction false} TextOfAnnotated(text: string, from: nat, links: bool)
    requires from <= |text|
    ensures Text(Annotated(text, from, links)) == text[from..]
    decreases |text| - from
  {
    hide Text, Linked, LinkLength, LinkDistance, Annotated;
    AnnotatedIs(text, from, links);
    var next := LinkDistance(text, from, links);
    if next.None? {
      TextOfLinked(text[from..], "");
    } else {
      var i := from + next.value;
      var link := text[i..i + LinkLength(text, i)];
      TextOfAnnotated(text, i + |link|, links);
      TextOfLinked(text[from..i], "");
      TextOfLinked(link, link);
      TextJoins(Linked(link, link), Annotated(text, i + |link|, links));
      TextJoins(Linked(text[from..i], ""), Linked(link, link) + Annotated(text, i + |link|, links));
      ThreeParts(text, from, i, i + |link|);
    }
  }

  lemma ThreeParts(text: string, a: nat, b: nat, c: nat)
    requires a <= b <= c <= |text|
    ensures text[a..] == text[a..b] + (text[b..c] + text[c..])
  {
  }

  /** The lines of a message hold its name and text, in order and without gaps; none is written exactly
      when there is no room for the hanging indentation. */
  lemma FormatKeepsText(line: ChatLine, cols: nat, links: bool)
    ensures HasRoom(line, cols) ==> FlatLines(Format(line, cols, links)) == Shown(line)
    ensures !HasRoom(line, cols) ==> Format(line, cols, links) == []
  {
    if HasRoom(line, cols) {
      hide Format, Annotated, Linked, Text, FlatLines, InkLines, NameShown;
      FormatShowsLinks(line, cols, links);
      TextOfLines(Format(line, cols, links));
      TextOfLinked(NameShown(line.name), "");
      TextOfAnnotated(line.text, 0, links);
      TextJoins(Linked(NameShown(line.name), ""), Annotated(line.text, 0, links));
      assert line.text[0..] == line.text;
    }
  }

  // ----- how the lines look -----

  /** Each fragment begins where the one before it ends, the first at column `start`. */
  predicate Contiguous(frags: seq<Fragment>, start: nat) {
    frags == [] ||
    (Contiguous(frags[..|frags| - 1], start) && frags[|frags| - 1].column == start + |Flat(frags[..|frags| - 1])|)
  }

  predicate FitsInto(frags: seq<Fragment>, start: nat, cols: nat) {
    Contiguous(frags, start) && start + |Flat(frags)| <= cols
  }

  function Start(i: nat, hanging: nat): nat {
    if i == 0 then 0 else hanging
  }

  /** Only the first line is marked as such, all others are indented, none is too long, none is blank. */
  ghost predicate WellLaid(lines: seq<FormattedLine>, cols: nat, hanging: nat) {
    forall i: nat :: i < |lines| ==>
      && lines[i].first == (i == 0) && FitsInto(lines[i].fragments, Start(i, hanging), cols)
      && Flat(lines[i].fragments) != ""
  }

  ghost predicate GoodLayout(s: Layout, cols: nat, hanging: nat) {
    && s.column < cols && WellLaid(s.lines, cols, hanging)
    && s.next.first == (s.lines == []) && Contiguous(s.next.fragments, Start(|s.lines|, hanging))
    && s.column == Start(|s.lines|, hanging) + |Flat(s.next.fragments)|
    && (s.next.fragments != [] ==> Flat(s.next.fragments) != "")
  }

  predicate NoneEmpty(frags: seq<Fragment>) {
    forall f :: f in frags ==> f.text != ""
  }

  /** An empty fragment comes only after others in its line, and ends the line. */
  predicate Ready(frags: seq<Fragment>, room: nat, used: bool) {
    frags == [] ||
    if frags[0].text == "" then used && frags[0].column == MARK && NoneEmpty(frags[1..])
    else if |frags[0].text| < room && frags[0].column != MARK then Ready(frags[1..], room - |frags[0].text|, true)
    else NoneEmpty(frags[1..])
  }

  lemma {:induction false} NoneEmptyIsReady(frags: seq<Fragment>, room: nat, used: bool)
    requires NoneEmpty(frags)
    ensures Ready(frags, room, used)
  {
    if frags != [] {
      assert frags[0] in frags;
      if |frags[0].text| < room {
        NoneEmptyIsReady(frags[1..], room - |frags[0].text|, true);
      }
    }
  }

  lemma ReadyLast(frag: Fragment, room: nat, used: bool)
    requires frag.text == "" ==> used && frag.column == MARK
    ensures Ready([frag], room, used)
  {
  }

  lemma ReadyNext(frag: Fragment, frags: seq<Fragment>, room: nat, used: bool)
    requires 0 < |frag.text| < room && frag.column != MARK && Ready(frags, room - |frag.text|, true)
    ensures Ready([frag] + frags, room, used)
  {
    assert ([frag] + frags)[1..] == frags;
  }

  lemma ProduceUnfolds(text: string, inPos: nat, room: nat, links: bool)
    requires inPos <= |text| && room >= 1
    ensures var p := NextPiece(text, inPos, room, links);
            var next, frag := inPos + p.length, FragmentOf(text, inPos, p);
            && (p.mark ==> Produce(text, inPos, room, links) == [frag] && ProducedTo(text, inPos, room, links) == next)
            && (!p.mark ==> Produce(text, inPos, room, links) == [frag] + Produce(text, next, room - p.length, links)
                            && ProducedTo(text, inPos, room, links) == ProducedTo(text, next, room - p.length, links))
  {
    hide NextPiece, FragmentOf;
  }

  lemma {:induction false} ProducedAreReady(text: string, inPos: nat, room: nat, links: bool, used: bool)
    requires inPos <= |text| && room >= 1 && (inPos < |text| || used)
    ensures Ready(Produce(text, inPos, room, links), room, used)
    decreases |text| - inPos
  {
    hide *;
    var p := NextPiece(text, inPos, room, links);
    if !p.mark {
      ProducedAreReady(text, inPos + p.length, room - p.length, links, true);
    }
    ReadyStep(text, inPos, room, links, used);
  }

  lemma ReadyStep(text: string, inPos: nat, room: nat, links: bool, used: bool)
    requires inPos <= |text| && room >= 1 && (inPos < |text| || used)
    requires var p := NextPiece(text, inPos, room, links);
             !p.mark ==> Ready(Produce(text, inPos + p.length, room - p.length, links), room - p.length, true)
    ensures Ready(Produce(text, inPos, room, links), room, used)
  {
    hide NextPiece, Ready, Produce, ProducedTo;
    var p := NextPiece(text, inPos, room, links);
    var frag := FragmentOf(text, inPos, p);
    if p.mark {
      ProduceUnfolds(text, inPos, room, links);
      ReadyLast(frag, room, used);
    } else {
      ProduceUnfolds(text, inPos, room, links);
      ReadyNext(frag, Produce(text, inPos + p.length, room - p.length, links), room, used);
    }
  }

  lemma PlaceContinues(s: Layout, frag: Fragment, start: nat)
    requires Contiguous(s.next.fragments, start) && s.column == start + |Flat(s.next.fragments)|
    ensures var s1 := Place(s, frag);
            && Contiguous(s1.next.fragments, start) && s1.column == start + |Flat(s1.next.fragments)|
            && s1.lines == s.lines && s1.next.first == s.next.first && s1.next.fragments != []
            && (frag.text != "" || Flat(s.next.fragments) != "" ==> Flat(s1.next.fragments) != "")
  {
    var f := frag.(column := s.column);
    FlatSplit(s.next.fragments, [f]);
    FlatOne(f);
    assert (s.next.fragments + [f])[..|s.next.fragments|] == s.next.fragments;
  }

  lemma EndLineIsGood(s: Layout, cols: nat, hanging: nat)
    requires hanging < cols && WellLaid(s.lines, cols, hanging) && s.next.first == (s.lines == [])
    requires FitsInto(s.next.fragments, Start(|s.lines|, hanging), cols) && Flat(s.next.fragments) != ""
    ensures GoodLayout(EndLine(s, hanging), cols, hanging)
  {
    hide FitsInto;
  }

  lemma StepIsGood(s: Layout, frags: seq<Fragment>, cols: nat, hanging: nat)
    requires frags != [] && hanging < cols && GoodLayout(s, cols, hanging)
    requires Ready(frags, cols - s.column, s.next.fragments != [])
    ensures var (s1, rest) := LayoutStep(s, frags, cols, hanging);
            GoodLayout(s1, cols, hanging) && Ready(rest, cols - s1.column, s1.next.fragments != [])
  {
    hide GoodLayout, WellLaid, Contiguous, Flat, Start, Place, EndLine, Ready, NoneEmpty, LayoutStep;
    GoodColumn(s, cols, hanging);
    var frag, space, tail := frags[0], cols - s.column, frags[1..];
    ReadyHead(frags, space, s.next.fragments != []);
    if |frag.text| <= space {
      StepTakes(s, frags, cols, hanging);
      PlacedIsGood(s, frag, tail, frag.column == MARK, cols, hanging);
    } else {
      var left := frag.(text := frag.text[space..], column := 0);
      StillNoneEmpty(left, tail);
      StepCuts(s, frags, cols, hanging);
      PlacedIsGood(s, frag.(text := frag.text[..space]), [left] + tail, true, cols, hanging);
    }
  }

  lemma GoodColumn(s: Layout, cols: nat, hanging: nat)
    requires GoodLayout(s, cols, hanging)
    ensures s.column < cols
  {
  }

  lemma ReadyHead(frags: seq<Fragment>, room: nat, used: bool)
    requires frags != [] && Ready(frags, room, used)
    ensures frags[0].text == "" ==> used
    ensures frags[0].column == MARK || |frags[0].text| >= room ==> NoneEmpty(frags[1..])
    ensures frags[0].column != MARK && |frags[0].text| < room ==> Ready(frags[1..], room - |frags[0].text|, true)
  {
    hide NoneEmpty;
  }

  lemma StillNoneEmpty(left: Fragment, tail: seq<Fragment>)
    requires left.text != "" && NoneEmpty(tail)
    ensures NoneEmpty([left] + tail)
  {
  }

  /** A fragment that fits is placed whole. */
  lemma StepTakes(s: Layout, frags: seq<Fragment>, cols: nat, hanging: nat)
    requires frags != [] && s.column < cols && hanging < cols && |frags[0].text| <= cols - s.column
    ensures var s1 := Place(s, frags[0]);
            LayoutStep(s, frags, cols, hanging) ==
            (if s1.column == cols || frags[0].column == MARK then EndLine(s1, hanging) else s1, frags[1..])
  {
    hide Place, EndLine;
  }

  /** Of a fragment that does not fit, as much is placed as does, and the line ends. */
  lemma StepCuts(s: Layout, frags: seq<Fragment>, cols: nat, hanging: nat)
    requires frags != [] && s.column < cols && hanging < cols && |frags[0].text| > cols - s.column
    ensures var space := cols - s.column;
            LayoutStep(s, frags, cols, hanging) ==
            (EndLine(Place(s, frags[0].(text := frags[0].text[..space])), hanging),
             [frags[0].(text := frags[0].text[space..], column := 0)] + frags[1..])
  {
    hide EndLine;
  }

  /** After a fragment has been placed, the line is ended when it is full or the fragment says so. */
  lemma PlacedIsGood(s: Layout, frag: Fragment, rest: seq<Fragment>, mark: bool, cols: nat, hanging: nat)
    requires hanging < cols && GoodLayout(s, cols, hanging) && |frag.text| <= cols - s.column
    requires frag.text != "" || s.next.fragments != []
    requires if mark || |frag.text| == cols - s.column then NoneEmpty(rest) else Ready(rest, cols - s.column - |frag.text|, true)
    ensures var s1 := Place(s, frag);
            var s2 := if s1.column == cols || mark then EndLine(s1, hanging) else s1;
            GoodLayout(s2, cols, hanging) && Ready(rest, cols - s2.column, s2.next.fragments != [])
  {
    var s1 := Place(s, frag);
    PlaceContinues(s, frag, Start(|s.lines|, hanging));
    hide WellLaid, Contiguous, Flat, Start, Ready, NoneEmpty;
    if s1.column == cols || mark {
      EndLineIsGood(s1, cols, hanging);
      NoneEmptyIsReady(rest, cols - EndLine(s1, hanging).column, false);
    }
  }

  lemma {:induction false} LayoutIsGood(s: Layout, frags: seq<Fragment>, cols: nat, hanging: nat)
    requires hanging < cols && GoodLayout(s, cols, hanging)
    requires Ready(frags, cols - s.column, s.next.fragments != [])
    ensures GoodLayout(LayoutAll(s, frags, cols, hanging), cols, hanging)
    decreases |frags|, if frags == [] then 0 else |frags[0].text|
  {
    if frags != [] {
      StepIsGood(s, frags, cols, hanging);
      var (s1, rest) := LayoutStep(s, frags, cols, hanging);
      hide WellLaid, Contiguous, Flat, Start, Ready;
      LayoutIsGood(s1, rest, cols, hanging);
    }
  }

  lemma {:induction false} RestIsGood(s: Layout, frags: seq<Fragment>, text: string, inPos: nat, cols: nat, hanging: nat, links: bool)
    requires hanging < cols && inPos <= |text| && GoodLayout(s, cols, hanging)
    requires Ready(frags, cols - s.column, s.next.fragments != [])
    ensures GoodLayout(Rest(s, frags, text, inPos, cols, hanging, links), cols, hanging)
    decreases |text| - inPos
  {
    hide Rest, LayoutAll, Produce, ProducedTo, GoodLayout, WellLaid, Contiguous, Flat, Start, Ready;
    GoodColumn(s, cols, hanging);
    RestIs(s, frags, text, inPos, cols, hanging, links);
    LayoutIsGood(s, frags, cols, hanging);
    if inPos < |text| {
      var s1 := LayoutAll(s, frags, cols, hanging);
      ProducedAreReady(text, inPos, cols - s1.column, links, s1.next.fragments != []);
      var frags1, inPos1 := Produce(text, inPos, cols - s1.column, links), ProducedTo(text, inPos, cols - s1.column, links);
      RestIsGood(s1, frags1, text, inPos1, cols, hanging, links);
    }
  }

  /** The same for lines that may be blank. */
  ghost predicate Laid(lines: seq<FormattedLine>, cols: nat, hanging: nat) {
    forall i: nat :: i < |lines| ==>
      lines[i].first == (i == 0) && FitsInto(lines[i].fragments, Start(i, hanging), cols)
  }

  /** A message with room gets at least one line; only its first line is marked as such; the others are
      indented; fragments join up; no line is longer than the console is wide; no line is blank unless
      there is nothing to show. */
  lemma FormatIsWellLaid(line: ChatLine, cols: nat, links: bool)
    requires HasRoom(line, cols)
    ensures var lines := Format(line, cols, links);
            && lines != [] && Laid(lines, cols, Hanging(line.name, cols))
            && (Shown(line) != "" ==> WellLaid(lines, cols, Hanging(line.name, cols)))
  {
    var hanging := Hanging(line.name, cols);
    assert hanging < cols;
    var start, frags := Layout([], FormattedLine([], true), 0), NameFragments(line.name);
    assert NoneEmpty(frags) && GoodLayout(start, cols, hanging);
    NoneEmptyIsReady(frags, cols, false);
    hide Rest, Contiguous, Flat, Start, Hanging, NameFragments, Shown, FlatLines, WellLaid, Laid, GoodLayout, Ready, NoneEmpty;
    RestIsGood(start, frags, line.text, 0, cols, hanging, links);
    FormatKeepsText(line, cols, links);
    FinishedIsLaid(Rest(start, frags, line.text, 0, cols, hanging, links), cols, hanging);
  }

  /** Where the lines of a message begin: the first in column 0, the others too if there is no name; where
      the text begins behind the name on the first line, if the shown name takes at most half of the
      columns; else in column 2. */
  lemma LinesBegin(line: ChatLine, cols: nat, links: bool, i: nat)
    requires if line.name == "" then cols > 0 else cols > 2
    requires i < |Format(line, cols, links)| && Format(line, cols, links)[i].fragments != []
    ensures var column := Format(line, cols, links)[i].fragments[0].column;
            && (i == 0 || line.name == "" ==> column == 0)
            && (i > 0 && line.name != "" && 2 * |"<" + line.name + "> "| <= cols ==> column == |"<" + line.name + "> "|)
            && (i > 0 && line.name != "" && 2 * |"<" + line.name + "> "| > cols ==> column == 2)
  {
    FormatIsWellLaid(line, cols, links);
    var lines := Format(line, cols, links);
    assert FitsInto(lines[i].fragments, Start(i, Hanging(line.name, cols)), cols);
    FirstBegins(lines[i].fragments, Start(i, Hanging(line.name, cols)));
    hide Format, Laid, WellLaid, FitsInto, Contiguous;
  }

  lemma {:induction false} FirstBegins(frags: seq<Fragment>, start: nat)
    requires frags != [] && Contiguous(frags, start)
    ensures frags[0].column == start
  {
    if |frags| > 1 {
      FirstBegins(frags[..|frags| - 1], start);
    } else {
      assert frags[..0] == [];
    }
  }

  /** On the first line the text begins behind the name. */
  lemma TextBehindName(line: ChatLine, cols: nat, links: bool)
    requires line.name != "" && cols > 2
    ensures Format(line, cols, links) != []
    ensures var begin, front := Flat(Format(line, cols, links)[0].fragments), "<" + line.name + "> ";
            |begin| >= |front| ==> begin[..|front|] == front
  {
    FormatIsWellLaid(line, cols, links);
    FormatKeepsText(line, cols, links);
    var lines, front := Format(line, cols, links), "<" + line.name + "> ";
    FirstLineLeads(lines);
    hide Format, Flat, FlatLines, Laid, WellLaid;
    var begin := Flat(lines[0].fragments);
    assert Shown(line)[..|front|] == front;
    assert |begin| >= |front| ==> begin[..|front|] == Shown(line)[..|begin|][..|front|];
  }

  lemma {:induction false} FirstLineLeads(lines: seq<FormattedLine>)
    requires lines != []
    ensures var begin, all := Flat(lines[0].fragments), FlatLines(lines);
            |begin| <= |all| && all[..|begin|] == begin
  {
    hide Flat;
    if |lines| > 1 {
      var front, last := lines[..|lines| - 1], Flat(lines[|lines| - 1].fragments);
      FirstLineLeads(front);
      assert FlatLines(lines) == FlatLines(front) + last && front[0] == lines[0];
      hide FlatLines;
      PrefixStays(Flat(lines[0].fragments), FlatLines(front), last);
    } else {
      assert lines[..0] == [] && FlatLines(lines) == "" + Flat(lines[0].fragments);
    }
  }

  lemma PrefixStays(begin: string, a: string, b: string)
    requires |begin| <= |a| && a[..|begin|] == begin
    ensures (a + b)[..|begin|] == begin
  {
    assert (a + b)[..|begin|] == a[..|begin|];
  }

  lemma FinishedIsLaid(s: Layout, cols: nat, hanging: nat)
    requires GoodLayout(s, cols, hanging)
    ensures var lines := if s.lines == [] || s.next.fragments != [] then s.lines + [s.next] else s.lines;
            lines != [] && Laid(lines, cols, hanging) && (WellLaid(lines, cols, hanging) || FlatLines(lines) == "")
  {
    if s.next.fragments != [] {
      LastLine(s, cols, hanging);
    } else if s.lines == [] {
      NothingWritten(s);
    }
    hide Contiguous, Flat, Start;
  }

  lemma LastLine(s: Layout, cols: nat, hanging: nat)
    requires GoodLayout(s, cols, hanging) && s.next.fragments != []
    ensures WellLaid(s.lines + [s.next], cols, hanging)
  {
    hide Contiguous, Flat, Start;
  }

  lemma NothingWritten(s: Layout)
    requires s.lines == [] && s.next.fragments == []
    ensures FlatLines(s.lines + [s.next]) == ""
  {
    assert (s.lines + [s.next])[..0] == [];
  }

  // ----- the loops -----

  method LayoutFragments(s0: Layout, frags0: seq<Fragment>, cols: nat, hanging: nat) returns (s: Layout)
    requires s0.column < cols && hanging < cols
    ensures s == LayoutAll(s0, frags0, cols, hanging)
  {
    s := s0;
    var frags := frags0;
    while frags != []
      invariant s.column < cols && LayoutAll(s, frags, cols, hanging) == LayoutAll(s0, frags0, cols, hanging)
      decreases |frags|, if frags == [] then 0 else |frags[0].text|
    {
      var markNewline := frags[0].column == MARK;
      ghost var step := LayoutStep(s, frags, cols, hanging);
      var frag := frags[0];
      if |frag.text| <= cols - s.column {
        s := Place(s, frag);
        frags := frags[1..];
      } else {
        var space := cols - s.column;
        s := Place(s, frag.(text := frag.text[..space]));
        frags := [frag.(text := frag.text[space..], column := 0)] + frags[1..];
      }
      if s.column == cols || markNewline {
        s := EndLine(s, hanging);
      }
      assert step == (s, frags);
    }
  }

  /** Cuts off the next piece of the text. */
  method TakePiece(text: string, inPos0: nat, room0: nat, links: bool, frags0: seq<Fragment>)
    returns (frags: seq<Fragment>, inPos: nat, room: nat, markNewline: bool)
    requires inPos0 <= |text| && room0 >= 1
    ensures inPos0 <= inPos <= |text| && (!markNewline ==> room >= 1 && inPos > inPos0)
    ensures markNewline ==> frags0 + Produce(text, inPos0, room0, links) == frags && ProducedTo(text, inPos0, room0, links) == inPos
    ensures !markNewline ==> frags0 + Produce(text, inPos0, room0, links) == frags + Produce(text, inPos, room, links)
    ensures !markNewline ==> ProducedTo(text, inPos0, room0, links) == ProducedTo(text, inPos, room, links)
  {
    hide *;
    var p := NextPiece(text, inPos0, room0, links);
    markNewline := p.mark;
    frags := frags0 + [FragmentOf(text, inPos0, p)];
    inPos := inPos0 + p.length;
    if p.mark {
      room := 0;
      ProduceNext(text, inPos0, room0, links, frags0);
    } else {
      room := room0 - p.length;
      ProduceNext(text, inPos0, room0, links, frags0);
    }
  }

  method ProduceFragments(text: string, inPos0: nat, room0: nat, links: bool) returns (frags: seq<Fragment>, inPos: nat)
    requires inPos0 <= |text| && room0 >= 1
    ensures frags == Produce(text, inPos0, room0, links) && inPos == ProducedTo(text, inPos0, room0, links)
  {
    frags, inPos := [], inPos0;
    var room, markNewline := room0, false;
    ghost var whole, end := Produce(text, inPos, room, links), ProducedTo(text, inPos, room, links);
    assert [] + whole == whole;
    hide *;
    while !markNewline
      invariant inPos0 <= inPos <= |text|
      invariant !markNewline ==> room >= 1 && whole == frags + Produce(text, inPos, room, links)
      invariant !markNewline ==> end == ProducedTo(text, inPos, room, links)
      invariant markNewline ==> whole == frags && end == inPos
      decreases !markNewline, |text| - inPos
    {
      frags, inPos, room, markNewline := TakePiece(text, inPos, room, links, frags);
    }
  }

  lemma ProduceNext(text: string, inPos: nat, room: nat, links: bool, frags: seq<Fragment>)
    requires inPos <= |text| && room >= 1
    ensures var p := NextPiece(text, inPos, room, links);
            var next, more := inPos + p.length, frags + [FragmentOf(text, inPos, p)];
            && (p.mark ==> frags + Produce(text, inPos, room, links) == more && ProducedTo(text, inPos, room, links) == next)
            && (!p.mark ==> frags + Produce(text, inPos, room, links) == more + Produce(text, next, room - p.length, links)
                            && ProducedTo(text, inPos, room, links) == ProducedTo(text, next, room - p.length, links))
  {
    ProduceUnfolds(text, inPos, room, links);
    hide NextPiece, FragmentOf, Produce, ProducedTo;
  }

  lemma RestUnfolds(s: Layout, frags: seq<Fragment>, text: string, inPos: nat, cols: nat, hanging: nat, links: bool)
    requires s.column < cols && hanging < cols && inPos <= |text|
    ensures var s1 := LayoutAll(s, frags, cols, hanging);
            && (inPos == |text| ==> Rest(s, frags, text, inPos, cols, hanging, links) == Rest(s1, [], text, inPos, cols, hanging, links))
            && (inPos < |text| ==>
                  Rest(s, frags, text, inPos, cols, hanging, links) ==
                  Rest(s1, Produce(text, inPos, cols - s1.column, links), text, ProducedTo(text, inPos, cols - s1.column, links), cols, hanging, links))
    ensures inPos == |text| && frags == [] ==> Rest(s, frags, text, inPos, cols, hanging, links) == s
  {
    hide Rest, LayoutAll, Produce, ProducedTo;
    var s1 := LayoutAll(s, frags, cols, hanging);
    RestIs(s, frags, text, inPos, cols, hanging, links);
    RestIs(s1, [], text, inPos, cols, hanging, links);
    NothingToLay(s1, cols, hanging);
    NothingToLay(s, cols, hanging);
  }

  lemma RestIs(s: Layout, frags: seq<Fragment>, text: string, inPos: nat, cols: nat, hanging: nat, links: bool)
    requires s.column < cols && hanging < cols && inPos <= |text|
    ensures var s1 := LayoutAll(s, frags, cols, hanging);
            && (inPos == |text| ==> Rest(s, frags, text, inPos, cols, hanging, links) == s1)
            && (inPos < |text| ==>
                  Rest(s, frags, text, inPos, cols, hanging, links) ==
                  Rest(s1, Produce(text, inPos, cols - s1.column, links), text, ProducedTo(text, inPos, cols - s1.column, links), cols, hanging, links))
  {
    hide LayoutAll, Produce, ProducedTo;
  }

  lemma NothingToLay(s: Layout, cols: nat, hanging: nat)
    requires s.column < cols && hanging < cols
    ensures LayoutAll(s, [], cols, hanging) == s
  {
  }

  /** Lays out the fragments at hand and produces those for the next line. */
  method FormatStep(s0: Layout, frags0: seq<Fragment>, text: string, inPos0: nat, cols: nat, hanging: nat, links: bool)
    returns (s: Layout, frags: seq<Fragment>, inPos: nat)
    requires s0.column < cols && hanging < cols && inPos0 <= |text|
    ensures s.column < cols && inPos0 <= inPos <= |text| && (inPos == inPos0 ==> frags == [] && inPos == |text|)
    ensures Rest(s0, frags0, text, inPos0, cols, hanging, links) == Rest(s, frags, text, inPos, cols, hanging, links)
  {
    hide *;
    s := LayoutFragments(s0, frags0, cols, hanging);
    frags, inPos := [], inPos0;
    if inPos < |text| {
      frags, inPos := ProduceFragments(text, inPos, cols - s.column, links);
      RestUnfolds(s0, frags0, text, inPos0, cols, hanging, links);
    } else {
      RestUnfolds(s0, frags0, text, inPos0, cols, hanging, links);
    }
  }

  /** Appends the lines of a message to `destination`. */
  method FormatChatLine(line: ChatLine, cols: nat, links: bool, destination0: seq<FormattedLine>)
    returns (added: nat, destination: seq<FormattedLine>)
    ensures destination == destination0 + Format(line, cols, links) && added == |Format(line, cols, links)|
  {
    var frags := NameFragments(line.name);
    var hanging := Hanging(line.name, cols);
    hide LayoutAll, Produce, ProducedTo, Rest, NameFragments, Hanging;
    if hanging >= cols {
      return 0, destination0;
    }
    var s, inPos := Layout([], FormattedLine([], true), 0), 0;
    ghost var whole := Rest(s, frags, line.text, 0, cols, hanging, links);
    while frags != [] || inPos < |line.text|
      invariant inPos <= |line.text| && s.column < cols
      invariant Rest(s, frags, line.text, inPos, cols, hanging, links) == whole
      decreases |line.text| - inPos, |frags|
    {
      s, frags, inPos := FormatStep(s, frags, line.text, inPos, cols, hanging, links);
    }
    RestUnfolds(s, [], line.text, inPos, cols, hanging, links);
    if s.lines == [] || s.next.fragments != [] {
      s := s.(lines := s.lines + [s.next]);
    }
    added, destination := |s.lines|, destination0 + s.lines;
  }
}
