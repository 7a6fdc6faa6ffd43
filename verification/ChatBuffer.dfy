/** The scrollback of the chat console: messages, and their lines at the present width. */
module ChatBuffer {
  import opened ChatFormat
  import opened Wrappers

  // ----- formatting many messages -----

  /** The lines of all messages. */
  function FormatAll(messages: seq<ChatLine>, cols: nat, links: bool): seq<FormattedLine> {
    if messages == [] then [] else Format(messages[0], cols, links) + FormatAll(messages[1..], cols, links)
  }

  lemma {:induction false} FormatAllSplit(a: seq<ChatLine>, b: seq<ChatLine>, cols: nat, links: bool)
    ensures FormatAll(a + b, cols, links) == FormatAll(a, cols, links) + FormatAll(b, cols, links)
  {
    if a == [] {
      assert a + b == b;
    } else {
      assert (a + b)[1..] == a[1..] + b && (a + b)[0] == a[0];
      hide Format;
      FormatAllSplit(a[1..], b, cols, links);
      LinesAssoc(Format(a[0], cols, links), FormatAll(a[1..], cols, links), FormatAll(b, cols, links));
    }
  }

  lemma LinesAssoc(a: seq<FormattedLine>, b: seq<FormattedLine>, c: seq<FormattedLine>)
    ensures a + (b + c) == a + b + c
  {
  }

  lemma FormatAllOne(m: ChatLine, cols: nat, links: bool)
    ensures FormatAll([m], cols, links) == Format(m, cols, links)
  {
    assert [m][1..] == [];
  }

  lemma FormatAllMore(messages: seq<ChatLine>, m: ChatLine, cols: nat, links: bool)
    ensures FormatAll(messages + [m], cols, links) == FormatAll(messages, cols, links) + Format(m, cols, links)
  {
    FormatAllSplit(messages, [m], cols, links);
    FormatAllOne(m, cols, links);
    hide FormatAll, Format;
  }

  predicate StartsMessage(lines: seq<FormattedLine>) {
    lines == [] || lines[0].first
  }

  /** The lines of one message: only the first is marked. */
  predicate OneMessage(lines: seq<FormattedLine>) {
    forall i :: 0 <= i < |lines| ==> lines[i].first == (i == 0)
  }

  lemma MessageLines(m: ChatLine, cols: nat, links: bool)
    ensures OneMessage(Format(m, cols, links))
    ensures Format(m, cols, links) != [] <==> HasRoom(m, cols)
  {
    FormatKeepsText(m, cols, links);
    if HasRoom(m, cols) {
      FormatIsWellLaid(m, cols, links);
    }
  }

  lemma {:induction false} AllStartMessage(messages: seq<ChatLine>, cols: nat, links: bool)
    ensures StartsMessage(FormatAll(messages, cols, links))
  {
    if messages != [] {
      MessageLines(messages[0], cols, links);
      AllStartMessage(messages[1..], cols, links);
    }
  }

  /** How many messages have room. */
  function Roomy(messages: seq<ChatLine>, cols: nat): (n: nat)
    ensures n <= |messages|
  {
    if messages == [] then 0 else (if HasRoom(messages[0], cols) then 1 else 0) + Roomy(messages[1..], cols)
  }

  lemma {:induction false} RoomySplit(a: seq<ChatLine>, b: seq<ChatLine>, cols: nat)
    ensures Roomy(a + b, cols) == Roomy(a, cols) + Roomy(b, cols)
  {
    if a == [] {
      assert a + b == b;
    } else {
      RoomySplit(a[1..], b, cols);
      assert (a + b)[1..] == a[1..] + b;
    }
  }

  ghost predicate AllRoomy(messages: seq<ChatLine>, cols: nat) {
    forall m :: m in messages ==> HasRoom(m, cols)
  }

  ghost predicate NoneRoomy(messages: seq<ChatLine>, cols: nat) {
    forall m :: m in messages ==> !HasRoom(m, cols)
  }

  lemma {:induction false} RoomyBounds(messages: seq<ChatLine>, cols: nat)
    ensures Roomy(messages, cols) == |messages| <==> AllRoomy(messages, cols)
    ensures Roomy(messages, cols) == 0 <==> NoneRoomy(messages, cols)
  {
    if messages != [] {
      RoomyBounds(messages[1..], cols);
      assert messages[0] in messages && forall m :: m in messages <==> m == messages[0] || m in messages[1..];
    }
  }

  /** The lines of a run of messages are none exactly when none of them has room. */
  lemma {:induction false} LinesOfRoomy(messages: seq<ChatLine>, cols: nat, links: bool)
    ensures FormatAll(messages, cols, links) == [] <==> Roomy(messages, cols) == 0
  {
    if messages != [] {
      MessageLines(messages[0], cols, links);
      LinesOfRoomy(messages[1..], cols, links);
    }
  }

  /** The number of messages before the end of the one that begins the lines: at least one line is
      there, so some message has room. */
  lemma {:induction false} NextRoomy(messages: seq<ChatLine>, cols: nat, links: bool) returns (k: nat)
    requires FormatAll(messages, cols, links) != []
    ensures k < |messages| && Roomy(messages[..k], cols) == 0 && HasRoom(messages[k], cols)
    ensures FormatAll(messages, cols, links) == Format(messages[k], cols, links) + FormatAll(messages[k + 1..], cols, links)
  {
    hide Format, Roomy, HasRoom;
    if HasRoom(messages[0], cols) {
      k := 0;
    } else {
      MessageLines(messages[0], cols, links);
      assert FormatAll(messages, cols, links) == FormatAll(messages[1..], cols, links);
      hide FormatAll;
      var j := NextRoomy(messages[1..], cols, links);
      k := j + 1;
      RoomyAfter(messages, cols, k);
      assert messages[1..][j + 1..] == messages[k + 1..];
    }
  }

  lemma RoomyAfter(messages: seq<ChatLine>, cols: nat, k: nat)
    requires 0 < k <= |messages| && !HasRoom(messages[0], cols)
    ensures Roomy(messages[..k], cols) == Roomy(messages[1..][..k - 1], cols)
  {
    assert messages[..k][1..] == messages[1..][..k - 1];
  }

  /** When lines are left there is a message of at least one line, `length` of them, and after it come
      the lines of the messages from `j + 1` on. */
  ghost predicate BeginsMessage(lines: seq<FormattedLine>, messages: seq<ChatLine>, cols: nat, links: bool, k: nat, j: nat, length: nat) {
    && k <= j < |messages| && 0 < length <= |lines| && OneMessage(lines[..length]) && StartsMessage(lines[length..])
    && Roomy(messages[..j + 1], cols) == Roomy(messages[..k], cols) + 1
    && lines[length..] == FormatAll(messages[j + 1..], cols, links)
  }

  lemma FirstMessage(lines: seq<FormattedLine>, messages: seq<ChatLine>, cols: nat, links: bool, k: nat) returns (j: nat, length: nat)
    requires k <= |messages| && lines != [] && lines == FormatAll(messages[k..], cols, links)
    ensures BeginsMessage(lines, messages, cols, links, k, j, length)
  {
    hide Format, FormatAll, Roomy, HasRoom, OneMessage, StartsMessage;
    var d := NextRoomy(messages[k..], cols, links);
    j := k + d;
    assert messages[k..][d] == messages[j] && messages[k..][d + 1..] == messages[j + 1..];
    var m, rest := Format(messages[j], cols, links), FormatAll(messages[j + 1..], cols, links);
    MessageLines(messages[j], cols, links);
    AllStartMessage(messages[j + 1..], cols, links);
    length := |m|;
    assert lines[..length] == m && lines[length..] == rest;
    RoomySkips(messages, cols, k, d);
  }

  lemma RoomySkips(messages: seq<ChatLine>, cols: nat, k: nat, d: nat)
    requires k + d < |messages| && Roomy(messages[k..][..d], cols) == 0 && HasRoom(messages[k + d], cols)
    ensures Roomy(messages[..k + d + 1], cols) == Roomy(messages[..k], cols) + 1
  {
    var last := [messages[k + d]];
    assert last[1..] == [];
    assert Roomy(last, cols) == 1;
    assert messages[..k + d + 1] == messages[..k] + (messages[k..][..d] + last);
    RoomySplit(messages[k..][..d], last, cols);
    RoomySplit(messages[..k], messages[k..][..d] + last, cols);
  }

  /** How many of the first `n` lines begin a message. */
  function CountFirst(lines: seq<FormattedLine>, n: nat): (c: nat)
    requires n <= |lines|
    ensures c <= n
  {
    if n == 0 then 0 else CountFirst(lines, n - 1) + if lines[n - 1].first then 1 else 0
  }

  // ----- scroll positions -----

  function TopScroll(count: nat, rows: nat): int {
    if rows == 0 then 0 else if count <= rows then count - rows else 0
  }

  function BottomScroll(count: nat, rows: nat): int {
    if rows == 0 then 0 else count - rows
  }

  function Clamp(scroll: int, count: nat, rows: nat): (r: int)
    ensures TopScroll(count, rows) <= r <= BottomScroll(count, rows)
    ensures TopScroll(count, rows) <= scroll <= BottomScroll(count, rows) ==> r == scroll
  {
    var s := if scroll < TopScroll(count, rows) then TopScroll(count, rows) else scroll;
    if s > BottomScroll(count, rows) then BottomScroll(count, rows) else s
  }

  /** What a row of the screen shows, if anything. */
  function ShownLine(lines: seq<FormattedLine>, scroll: int, row: nat): Option<FormattedLine> {
    if 0 <= scroll + row < |lines| then Some(lines[scroll + row]) else None
  }

  ghost predicate RowsShown(lines: seq<FormattedLine>, scroll: int, rows: nat, blank: nat) {
    forall row: nat :: row < rows ==> (ShownLine(lines, scroll, row).None? <==> row < blank)
  }

  /** A position is allowed exactly if no row stays blank, or, when there are too few lines, exactly the
      upper ones that the lines do not need; the last one shows the last line in the bottom row. */
  lemma ScreenShows(lines: seq<FormattedLine>, scroll: int, rows: nat)
    requires rows > 0 && lines != []
    ensures TopScroll(|lines|, rows) <= scroll <= BottomScroll(|lines|, rows) <==>
            RowsShown(lines, scroll, rows, if |lines| < rows then rows - |lines| else 0)
    ensures scroll == BottomScroll(|lines|, rows) <==> scroll + rows - 1 == |lines| - 1
  {
    var blank := if |lines| < rows then rows - |lines| else 0;
    if RowsShown(lines, scroll, rows, blank) {
      assert ShownLine(lines, scroll, rows - 1).Some?;
      assert ShownLine(lines, scroll, blank).Some?;
      assert blank > 0 ==> ShownLine(lines, scroll, blank - 1).None?;
    }
  }

  // ----- deleting messages -----

  /** What follows the first `n` messages that have room. */
  function AfterRoomy(messages: seq<ChatLine>, cols: nat, n: nat): seq<ChatLine> {
    if messages == [] then [] else if n == 0 then messages
    else AfterRoomy(messages[1..], cols, if HasRoom(messages[0], cols) then n - 1 else n)
  }

  /** After `gone` messages have been deleted: the lines of as many messages with room are gone, and the
      console stays at the bottom or shows the lines that it showed, as far as they are left. */
  ghost predicate Deleted(lines: seq<FormattedLine>, lines': seq<FormattedLine>, messages: seq<ChatLine>, gone: nat,
                          cols: nat, rows: nat, links: bool, scroll: int, scroll': int) {
    && |lines'| <= |lines|
    && lines' == (if rows == 0 then [] else FormatAll(AfterRoomy(messages, cols, gone), cols, links))
    && scroll' == if scroll == BottomScroll(|lines|, rows) then BottomScroll(|lines'|, rows)
                  else Clamp(scroll - (|lines| - |lines'|), |lines'|, rows)
  }

  lemma TopAboveBottom(count: nat, rows: nat)
    ensures TopScroll(count, rows) <= BottomScroll(count, rows)
  {
  }

  lemma DeletedIs(lines: seq<FormattedLine>, lines': seq<FormattedLine>, messages: seq<ChatLine>, gone: nat,
                  cols: nat, rows: nat, links: bool, scroll: int, scroll': int)
    requires |lines'| <= |lines| && (rows == 0 ==> lines' == [])
    requires rows > 0 ==> lines' == FormatAll(AfterRoomy(messages, cols, gone), cols, links)
    requires scroll' == if scroll == BottomScroll(|lines|, rows) then BottomScroll(|lines'|, rows)
                        else Clamp(scroll - (|lines| - |lines'|), |lines'|, rows)
    ensures Deleted(lines, lines', messages, gone, cols, rows, links, scroll, scroll')
  {
  }

  class ChatBuffer {
    const links: bool
    var scrollback: nat
    var unformatted: seq<ChatLine>
    var formatted: seq<FormattedLine>
    var cols: nat
    var rows: nat
    var scroll: int
    var linesModified: bool

    /** The lines are those of all messages at the present width. */
    predicate InSync()
      reads this
    {
      if rows == 0 then formatted == [] else formatted == FormatAll(unformatted, cols, links)
    }

    predicate ScrollInRange()
      reads this
    {
      TopScroll(|formatted|, rows) <= scroll <= BottomScroll(|formatted|, rows)
    }

    predicate AtBottom()
      reads this
    {
      scroll == BottomScroll(|formatted|, rows)
    }

    predicate Sized()
      reads this
    {
      rows == 0 <==> cols == 0
    }

    predicate Valid()
      reads this
    {
      Sized() && InSync() && ScrollInRange()
    }

    constructor (scrollback: nat, links: bool)
      ensures Valid() && unformatted == [] && rows == 0 && this.links == links
      ensures this.scrollback == if scrollback == 0 then 1 else scrollback
    {
      this.scrollback := if scrollback == 0 then 1 else scrollback;
      this.links := links;
      unformatted, formatted, cols, rows, scroll, linesModified := [], [], 0, 0, 0, true;
    }

    method ScrollAbsolute(scroll: int)
      modifies this`scroll
      ensures this.scroll == Clamp(scroll, |formatted|, rows)
    {
      this.scroll := scroll;
      if this.scroll < TopScroll(|formatted|, rows) {
        this.scroll := TopScroll(|formatted|, rows);
      }
      if this.scroll > BottomScroll(|formatted|, rows) {
        this.scroll := BottomScroll(|formatted|, rows);
      }
    }

    method Scroll(amount: int)
      modifies this`scroll
      ensures scroll == Clamp(old(scroll) + amount, |formatted|, rows)
    {
      ScrollAbsolute(scroll + amount);
    }

    method ScrollBottom()
      modifies this`scroll
      ensures AtBottom()
    {
      scroll := BottomScroll(|formatted|, rows);
    }

    /** Steps over the lines of the message that begins at `from`. */
    method SkipMessage(from: nat, ghost k: nat, ghost j: nat, ghost length: nat) returns (to: nat)
      requires from < |formatted| && BeginsMessage(formatted[from..], unformatted, cols, links, k, j, length)
      ensures to == from + length
    {
      MessageShape(formatted, from, unformatted, cols, links, k, j, length);
      // what the program checks for its sanity
      assert formatted[from].first;
      to := from + 1;
      while to < |formatted| && !formatted[to].first
        invariant from < to <= from + length
      {
        to := to + 1;
      }
    }

    /** Counts off one more message, with the lines of the next one that has any. */
    method CountOff(del: nat, from: nat, ghost k: nat) returns (to: nat, ghost k1: nat)
      requires del < |unformatted| && from <= |formatted|
      requires if rows == 0 then formatted == [] else Consumed(formatted, unformatted, cols, links, del, from, k)
      ensures to <= |formatted|
      ensures rows > 0 ==> Consumed(formatted, unformatted, cols, links, del + 1, to, k1)
    {
      hide *;
      if from < |formatted| {
        ghost var j, length := ConsumeNext(formatted, unformatted, cols, links, del, from, k);
        to := SkipMessage(from, k, j, length);
        k1 := j + 1;
        ConsumedFits(formatted, unformatted, cols, links, del + 1, to, k1);
      } else {
        to, k1 := from, k;
        if rows > 0 {
          ConsumedFits(formatted, unformatted, cols, links, del, from, k);
        }
      }
    }

    /** Goes through the oldest messages and their lines. */
    method FindOldest(count: nat) returns (delUnformatted: nat, delFormatted: nat, ghost k: nat)
      requires Valid()
      ensures delUnformatted == if count < |unformatted| then count else |unformatted|
      ensures delFormatted <= |formatted|
      ensures rows > 0 ==> Consumed(formatted, unformatted, cols, links, delUnformatted, delFormatted, k)
    {
      var left: nat := count;
      delUnformatted, delFormatted, k := 0, 0, 0;
      NothingConsumed(unformatted, cols, links);
      while left > 0 && delUnformatted < |unformatted|
        invariant delUnformatted + left == count && delUnformatted <= |unformatted| && delFormatted <= |formatted|
        invariant rows > 0 ==> Consumed(formatted, unformatted, cols, links, delUnformatted, delFormatted, k)
      {
        delFormatted, k := CountOff(delUnformatted, delFormatted, k);
        delUnformatted := delUnformatted + 1;
        left := left - 1;
      }
    }

    /** Deletes the oldest messages with their lines. Afterwards the lines are those of the remaining
        messages exactly if every deleted message had room, or none of the remaining ones has. */
    method DeleteOldest(count: nat)
      requires Valid()
      modifies this`unformatted, this`formatted, this`linesModified, this`scroll
      ensures unformatted == old(unformatted)[if count < |old(unformatted)| then count else |old(unformatted)|..]
      ensures Deleted(old(formatted), formatted, old(unformatted), |old(unformatted)| - |unformatted|, cols, rows, links, old(scroll), scroll)
      ensures linesModified == (old(linesModified) || |unformatted| < |old(unformatted)|)
      ensures Sized() && ScrollInRange() && (old(AtBottom()) ==> AtBottom())
      ensures rows == 0 ==> InSync()
      ensures rows > 0 ==> (InSync() <==> AllRoomy(old(unformatted)[..|old(unformatted)| - |unformatted|], cols) || NoneRoomy(unformatted, cols))
      ensures rows == 0 || cols >= 3 ==> Valid()
    {
      hide Roomy, FormatAll, AllRoomy, NoneRoomy, Consumed, Format, HasRoom, AfterRoomy, TopScroll, BottomScroll, Clamp, Deleted;
      var atBottom := scroll == BottomScroll(|formatted|, rows);
      var delUnformatted, delFormatted, k := FindOldest(count);
      ghost var all := unformatted;
      assert all[..|all| - |all[delUnformatted..]|] == all[..delUnformatted];
      if rows > 0 {
        DeletionSync(formatted, unformatted, cols, links, delUnformatted, delFormatted, k);
        ConsumedIs(formatted, unformatted, cols, links, delUnformatted, delFormatted, k);
        WideEnough(all[..delUnformatted], cols);
      }
      unformatted := unformatted[delUnformatted..];
      formatted := formatted[delFormatted..];
      if delUnformatted > 0 {
        linesModified := true;
      }
      if atBottom {
        scroll := BottomScroll(|formatted|, rows);
      } else {
        ScrollAbsolute(scroll - delFormatted);
      }
      TopAboveBottom(|formatted|, rows);
      DeletedIs(old(formatted), formatted, all, delUnformatted, cols, rows, links, old(scroll), scroll);
    }

    /** Appends a message and its lines. */
    method Append(line: ChatLine)
      requires Valid()
      modifies this`unformatted, this`formatted, this`linesModified, this`scroll
      ensures Valid() && unformatted == old(unformatted) + [line] && linesModified
      ensures scroll == if old(AtBottom()) then BottomScroll(|formatted|, rows) else old(scroll)
    {
      hide FormatAll, Format;
      linesModified := true;
      FormatAllMore(unformatted, line, cols, links);
      unformatted := unformatted + [line];
      if rows > 0 {
        var scrolledAtBottom := scroll == BottomScroll(|formatted|, rows);
        var added;
        added, formatted := FormatChatLine(line, cols, links, formatted);
        if scrolledAtBottom {
          scroll := scroll + added;
        }
      }
    }

    /** Adds a message; the oldest ones go when there are too many. */
    method AddLine(name: string, text: string)
      requires Valid()
      modifies this`unformatted, this`formatted, this`linesModified, this`scroll
      ensures var all := old(unformatted) + [ChatLine(name, text)];
              var gone := if |all| > scrollback then |all| - scrollback else 0;
              && unformatted == all[gone..]
              && (rows == 0 || AllRoomy(all[..gone], cols) || NoneRoomy(all[gone..], cols) <==> InSync())
      ensures var all := old(unformatted) + [ChatLine(name, text)];
              var lines := if rows == 0 then [] else FormatAll(all, cols, links);
              Deleted(lines, formatted, all, |all| - |unformatted|, cols, rows, links,
                      if old(AtBottom()) then BottomScroll(|lines|, rows) else old(scroll), scroll)
      ensures linesModified && Sized() && ScrollInRange() && (old(AtBottom()) ==> AtBottom())
      ensures rows == 0 || cols >= 3 ==> Valid()
    {
      hide Deleted, FormatAll, AllRoomy, NoneRoomy, TopScroll, BottomScroll;
      Append(ChatLine(name, text));
      Trim();
    }

    /** Deletes the oldest messages when there are too many. */
    method Trim()
      requires Valid()
      modifies this`unformatted, this`formatted, this`linesModified, this`scroll
      ensures var gone := if |old(unformatted)| > scrollback then |old(unformatted)| - scrollback else 0;
              && unformatted == old(unformatted)[gone..]
              && (rows == 0 || AllRoomy(old(unformatted)[..gone], cols) || NoneRoomy(unformatted, cols) <==> InSync())
      ensures Deleted(old(formatted), formatted, old(unformatted), |old(unformatted)| - |unformatted|, cols, rows, links, old(scroll), scroll)
      ensures linesModified == (old(linesModified) || |unformatted| < |old(unformatted)|)
      ensures Sized() && ScrollInRange() && (old(AtBottom()) ==> AtBottom())
      ensures rows == 0 || cols >= 3 ==> Valid()
    {
      hide FormatAll, Roomy, AllRoomy, NoneRoomy;
      if |unformatted| > scrollback {
        DeleteOldest(|unformatted| - scrollback);
      } else {
        NothingGone(unformatted, cols);
      }
    }

    /** Changes how many messages are kept. */
    method Resize(scrollback: nat)
      requires Valid()
      modifies this`scrollback, this`unformatted, this`formatted, this`linesModified, this`scroll
      ensures var gone := if |old(unformatted)| > scrollback then |old(unformatted)| - scrollback else 0;
              && this.scrollback == scrollback && unformatted == old(unformatted)[gone..]
              && (rows == 0 || AllRoomy(old(unformatted)[..gone], cols) || NoneRoomy(unformatted, cols) <==> InSync())
      ensures Deleted(old(formatted), formatted, old(unformatted), |old(unformatted)| - |unformatted|, cols, rows, links, old(scroll), scroll)
      ensures linesModified == (old(linesModified) || |unformatted| < |old(unformatted)|)
      ensures Sized() && ScrollInRange() && (old(AtBottom()) ==> AtBottom())
      ensures rows == 0 || cols >= 3 ==> Valid()
    {
      hide Deleted, FormatAll, AllRoomy, NoneRoomy, TopScroll, BottomScroll;
      this.scrollback := scrollback;
      Trim();
    }

    /** Removes all messages. The scroll position is right afterwards only while there is no console. */
    method Clear()
      requires Valid()
      modifies this`unformatted, this`formatted, this`linesModified, this`scroll
      ensures unformatted == [] && formatted == [] && scroll == 0 && linesModified && Sized() && InSync()
      ensures ScrollInRange() <==> rows == 0
    {
      unformatted := [];
      formatted := [];
      scroll := 0;
      linesModified := true;
    }

    /** Adapts the lines to a new size of the console. */
    method Reformat(newCols: nat, newRows: nat)
      requires Valid()
      modifies this`formatted, this`cols, this`rows, this`scroll
      ensures Valid()
      ensures if newCols == 0 || newRows == 0 then cols == rows == 0 else cols == newCols && rows == newRows
      ensures old(AtBottom()) ==> AtBottom()
      ensures newCols == old(cols) && newRows == old(rows) ==> scroll == old(scroll)
      ensures !old(AtBottom()) && newCols > 0 && newRows > 0 && (newCols != old(cols) || newRows != old(rows)) ==>
                scroll == Clamp(Restored(old(formatted), unformatted, old(cols), newCols, links, old(scroll)), |formatted|, rows)
    {
      if newCols == 0 || newRows == 0 {
        cols, rows, scroll, formatted := 0, 0, 0, [];
      } else if newCols != cols || newRows != rows {
        var restoreUnformatted, restoreFormatted: nat := 0, 0;
        var atBottom := scroll == BottomScroll(|formatted|, rows);
        if !atBottom {
          restoreUnformatted := CountScrolled();
        }
        if newCols != cols {
          restoreFormatted := FormatAgain(newCols, restoreUnformatted);
        }
        cols, rows := newCols, newRows;
        if atBottom {
          ScrollBottom();
        } else {
          ScrollAbsolute(restoreFormatted);
        }
      }
    }

    /** How many messages begin above the screen. */
    method CountScrolled() returns (count: nat)
      requires scroll <= |formatted|
      ensures count == CountFirst(formatted, Max(scroll, 0))
    {
      count := 0;
      var i := 0;
      while i < scroll
        invariant 0 <= i <= Max(scroll, 0) && count == CountFirst(formatted, i)
      {
        if formatted[i].first {
          count := count + 1;
        }
        i := i + 1;
      }
    }

    /** Formats all messages at a new width and finds where message number `mark` begins. */
    method FormatAgain(newCols: nat, mark: nat) returns (start: nat)
      modifies this`formatted
      ensures formatted == FormatAll(unformatted, newCols, links)
      ensures start == if mark < |unformatted| then |FormatAll(unformatted[..mark], newCols, links)| else 0
    {
      hide FormatFirst, FormatAll, Format;
      formatted, start := [], 0;
      FormatNone(unformatted, mark, newCols, links);
      for i := 0 to |unformatted|
        invariant formatted == FormatFirst(unformatted, i, newCols, links)
        invariant start == if mark < i then |FormatFirst(unformatted, mark, newCols, links)| else 0
      {
        if i == mark {
          start := |formatted|;
        }
        FormatNext(unformatted, i, newCols, links);
        var added;
        added, formatted := FormatChatLine(unformatted[i], newCols, links, formatted);
      }
    }
  }

  /** The lines of the first `n` messages. */
  function FormatFirst(messages: seq<ChatLine>, n: nat, cols: nat, links: bool): seq<FormattedLine>
    requires n <= |messages|
  {
    FormatAll(messages[..n], cols, links)
  }

  lemma FormatNone(messages: seq<ChatLine>, mark: nat, cols: nat, links: bool)
    ensures FormatFirst(messages, 0, cols, links) == []
    ensures FormatFirst(messages, |messages|, cols, links) == FormatAll(messages, cols, links)
    ensures mark < |messages| ==> FormatFirst(messages, mark, cols, links) == FormatAll(messages[..mark], cols, links)
  {
    assert messages[..|messages|] == messages;
  }

  lemma FormatNext(messages: seq<ChatLine>, i: nat, cols: nat, links: bool)
    requires i < |messages|
    ensures FormatFirst(messages, i + 1, cols, links) == FormatFirst(messages, i, cols, links) + Format(messages[i], cols, links)
  {
    assert messages[..i + 1] == messages[..i] + [messages[i]];
    FormatAllMore(messages[..i], messages[i], cols, links);
    hide Format, FormatAll;
  }

  function Max(a: int, b: int): int {
    if a < b then b else a
  }

  /** Where the console is scrolled to when its size changes: if the width changes, to the message that
      follows the lines scrolled away; but to the first line if only the height changes or if there is no
      such message. */
  function Restored(lines: seq<FormattedLine>, messages: seq<ChatLine>, cols: nat, newCols: nat, links: bool, scroll: int): nat
    requires scroll <= |lines|
  {
    var mark := CountFirst(lines, Max(scroll, 0));
    if newCols != cols && mark < |messages| then |FormatAll(messages[..mark], newCols, links)| else 0
  }

  /** A console that shows the beginning of a message in its top row shows the same message there after
      its width has changed, provided that every message has room at the old width. */
  lemma TopMessageStays(messages: seq<ChatLine>, m: nat, cols: nat, newCols: nat, links: bool)
    requires m < |messages| && newCols != cols && AllRoomy(messages, cols)
    ensures var lines, scroll := FormatAll(messages, cols, links), |FormatAll(messages[..m], cols, links)|;
            && scroll <= |lines|
            && Restored(lines, messages, cols, newCols, links, scroll) == |FormatAll(messages[..m], newCols, links)|
  {
    assert messages == messages[..m] + messages[m..];
    FormatAllSplit(messages[..m], messages[m..], cols, links);
    RoomyBounds(messages[..m], cols);
    FirstsAreRoomy(messages[..m], cols, links);
    FirstsOfPrefix(FormatAll(messages[..m], cols, links), FormatAll(messages[m..], cols, links), |FormatAll(messages[..m], cols, links)|);
  }

  lemma {:induction false} FirstsOfPrefix(a: seq<FormattedLine>, b: seq<FormattedLine>, n: nat)
    requires n <= |a|
    ensures CountFirst(a + b, n) == CountFirst(a, n)
  {
    if n > 0 {
      FirstsOfPrefix(a, b, n - 1);
    }
  }

  lemma {:induction false} FirstsOfSuffix(a: seq<FormattedLine>, b: seq<FormattedLine>, n: nat)
    requires n <= |b|
    ensures CountFirst(a + b, |a| + n) == CountFirst(a, |a|) + CountFirst(b, n)
  {
    if n == 0 {
      FirstsOfPrefix(a, b, |a|);
    } else {
      FirstsOfSuffix(a, b, n - 1);
    }
  }

  lemma {:induction false} FirstsOfOne(lines: seq<FormattedLine>, n: nat)
    requires OneMessage(lines) && n <= |lines|
    ensures CountFirst(lines, n) == if n == 0 then 0 else 1
  {
    if n > 0 {
      FirstsOfOne(lines, n - 1);
    }
  }

  /** Every message with room begins with exactly one marked line. */
  lemma {:induction false} FirstsAreRoomy(messages: seq<ChatLine>, cols: nat, links: bool)
    ensures CountFirst(FormatAll(messages, cols, links), |FormatAll(messages, cols, links)|) == Roomy(messages, cols)
  {
    hide Format, FormatAll, CountFirst, Roomy, HasRoom, OneMessage;
    if messages == [] {
      NoMessages(cols, links);
    } else {
      var m, rest := Format(messages[0], cols, links), FormatAll(messages[1..], cols, links);
      MessageLines(messages[0], cols, links);
      FirstsOfOne(m, |m|);
      FirstsAreRoomy(messages[1..], cols, links);
      FirstsOfSuffix(m, rest, |rest|);
      OneMoreMessage(messages, cols, links);
    }
  }

  lemma NoMessages(cols: nat, links: bool)
    ensures FormatAll([], cols, links) == [] && Roomy([], cols) == 0 && CountFirst([], 0) == 0
  {
  }

  lemma OneMoreMessage(messages: seq<ChatLine>, cols: nat, links: bool)
    requires messages != []
    ensures FormatAll(messages, cols, links) == Format(messages[0], cols, links) + FormatAll(messages[1..], cols, links)
    ensures Roomy(messages, cols) == (if HasRoom(messages[0], cols) then 1 else 0) + Roomy(messages[1..], cols)
  {
    hide Format;
  }

  /** With three columns or more every message has room, so the lines always stay right. */
  lemma WideEnough(messages: seq<ChatLine>, cols: nat)
    ensures cols >= 3 ==> AllRoomy(messages, cols)
  {
  }

  lemma NothingGone(messages: seq<ChatLine>, cols: nat)
    ensures messages[0..] == messages && AllRoomy(messages[..0], cols)
  {
  }

  /** The first line of a message is marked, the others are not, and the line after it is. */
  lemma MessageShape(formatted: seq<FormattedLine>, from: nat, messages: seq<ChatLine>, cols: nat, links: bool, k: nat, j: nat, length: nat)
    requires from < |formatted| && BeginsMessage(formatted[from..], messages, cols, links, k, j, length)
    ensures 0 < length && from + length <= |formatted|
    ensures forall i :: from <= i < from + length ==> formatted[i].first == (i == from)
    ensures from + length < |formatted| ==> formatted[from + length].first
  {
    var lines := formatted[from..];
    hide FormatAll, Roomy;
    forall i | from <= i < from + length
      ensures formatted[i].first == (i == from)
    {
      assert lines[..length][i - from] == formatted[i];
    }
    if from + length < |formatted| {
      assert lines[length..][0] == formatted[from + length];
    }
  }

  /** `del` messages have been counted off and `from` lines: those of as many messages with room, if
      there are so many, which lie before message `k`. */
  ghost predicate Consumed(lines: seq<FormattedLine>, messages: seq<ChatLine>, cols: nat, links: bool, del: nat, from: nat, k: nat) {
    && del <= |messages| && from <= |lines| && k <= |messages| && lines[from..] == FormatAll(messages[k..], cols, links)
    && Roomy(messages[..k], cols) <= del
    && (Roomy(messages[..k], cols) == del || from == |lines|)
  }

  lemma NothingConsumed(messages: seq<ChatLine>, cols: nat, links: bool)
    ensures Consumed(FormatAll(messages, cols, links), messages, cols, links, 0, 0, 0)
  {
    RoomyBounds(messages[..0], cols);
    assert messages[0..] == messages;
    hide FormatAll;
  }

  lemma ConsumedIs(lines: seq<FormattedLine>, messages: seq<ChatLine>, cols: nat, links: bool, del: nat, from: nat, k: nat)
    requires Consumed(lines, messages, cols, links, del, from, k)
    ensures from <= |lines| && lines[from..] == FormatAll(AfterRoomy(messages, cols, del), cols, links)
  {
    hide FormatAll, Roomy, AfterRoomy;
    if Roomy(messages[..k], cols) == del {
      AfterRoomyAt(messages, cols, links, k, del);
    } else {
      assert messages == messages[..k] + messages[k..];
      RoomySplit(messages[..k], messages[k..], cols);
      LinesOfRoomy(messages[k..], cols, links);
      NoneAfter(messages, cols, del);
      assert lines[from..] == [];
      NoMessages(cols, links);
    }
  }

  lemma {:induction false} AfterRoomyAt(messages: seq<ChatLine>, cols: nat, links: bool, k: nat, del: nat)
    requires k <= |messages| && Roomy(messages[..k], cols) == del
    ensures FormatAll(messages[k..], cols, links) == FormatAll(AfterRoomy(messages, cols, del), cols, links)
  {
    hide HasRoom, Format;
    if k > 0 {
      var tail := messages[1..];
      assert messages[..k][1..] == tail[..k - 1] && tail[k - 1..] == messages[k..];
      MessageLines(messages[0], cols, links);
      AfterRoomyAt(tail, cols, links, k - 1, if HasRoom(messages[0], cols) then del - 1 else del);
    }
  }

  lemma {:induction false} NoneAfter(messages: seq<ChatLine>, cols: nat, n: nat)
    requires Roomy(messages, cols) < n
    ensures AfterRoomy(messages, cols, n) == []
  {
    if messages != [] {
      NoneAfter(messages[1..], cols, if HasRoom(messages[0], cols) then n - 1 else n);
    }
  }

  lemma ConsumedFits(lines: seq<FormattedLine>, messages: seq<ChatLine>, cols: nat, links: bool, del: nat, from: nat, k: nat)
    requires Consumed(lines, messages, cols, links, del, from, k)
    ensures from <= |lines|
    ensures del < |messages| && from == |lines| ==> Consumed(lines, messages, cols, links, del + 1, from, k)
  {
    hide FormatAll, Roomy;
  }

  lemma ConsumeNext(lines: seq<FormattedLine>, messages: seq<ChatLine>, cols: nat, links: bool, del: nat, from: nat, k: nat)
    returns (j: nat, length: nat)
    requires Consumed(lines, messages, cols, links, del, from, k) && from < |lines| && del < |messages|
    ensures BeginsMessage(lines[from..], messages, cols, links, k, j, length)
    ensures Consumed(lines, messages, cols, links, del + 1, from + length, j + 1)
  {
    hide FormatAll, Roomy;
    j, length := FirstMessage(lines[from..], messages, cols, links, k);
    assert lines[from + length..] == lines[from..][length..];
  }

  /** After the deletion the lines are right exactly under the stated condition. */
  lemma DeletionSync(lines: seq<FormattedLine>, messages: seq<ChatLine>, cols: nat, links: bool, del: nat, from: nat, k: nat)
    requires Consumed(lines, messages, cols, links, del, from, k)
    ensures from <= |lines|
    ensures lines[from..] == FormatAll(messages[del..], cols, links) <==>
            AllRoomy(messages[..del], cols) || NoneRoomy(messages[del..], cols)
  {
    hide FormatAll, Roomy, AllRoomy, NoneRoomy;
    assert messages == messages[..k] + messages[k..] && messages == messages[..del] + messages[del..];
    RoomySplit(messages[..k], messages[k..], cols);
    RoomySplit(messages[..del], messages[del..], cols);
    RoomyBounds(messages[..del], cols);
    RoomyBounds(messages[del..], cols);
    LinesOfRoomy(messages[k..], cols, links);
    SameLines(messages, cols, links, k, del);
  }

  /** The lines after two places of the conversation agree exactly if no message with room is between. */
  lemma SameLines(messages: seq<ChatLine>, cols: nat, links: bool, a: nat, b: nat)
    requires a <= |messages| && b <= |messages|
    ensures FormatAll(messages[a..], cols, links) == FormatAll(messages[b..], cols, links) <==>
            Roomy(messages[..a], cols) == Roomy(messages[..b], cols)
  {
    var i, j := if a < b then a else b, if a < b then b else a;
    assert messages[i..] == messages[i..j] + messages[j..];
    assert messages[..j] == messages[..i] + messages[i..j];
    FormatAllSplit(messages[i..j], messages[j..], cols, links);
    RoomySplit(messages[..i], messages[i..j], cols);
    LinesOfRoomy(messages[i..j], cols, links);
    if FormatAll(messages[i..j], cols, links) == [] {
      assert [] + FormatAll(messages[j..], cols, links) == FormatAll(messages[j..], cols, links);
    } else {
      assert |FormatAll(messages[i..], cols, links)| > |FormatAll(messages[j..], cols, links)|;
    }
  }
}
