/** The listing store of the bot: per-user lists of trade offers and of
    looking-for requests, the replies that show them, and the single-use
    codes that make a user an admin. Replies are returned as strings instead
    of being sent. */
module Bot {
  import opened Text

  // ---------------------------------------------------------------------------
  // Commands, offsets and replies

  const TradePrefix := "+трейд"
  const LfPrefix := "+lf"
  /** A one-line submission keeps what follows the command and one separator. */
  const TradeOffset: nat := 7
  const LfOffset: nat := 4

  const TradeAdded := "Добавлено в трейд."
  const LfAdded := "Добавлено в лф."
  const TradeHeading := "Твой трейд:"
  const LfHeading := "Ты ищешь:"
  const TradeEmpty := "Трейд пуст."
  const LfEmpty := "Лф пуст."
  const TradeCleared := "Трейд очищен."
  const LfCleared := "Лф очищен."
  const AdminGranted := "Теперь ты админ. Тебе доступны админ-команды."

  /** The activation codes the bot starts with. */
  const InitialCodes: set<string> := {"#VagueOwner", "#ShapkaKrutoi", "#MikuPikuBeam"}

  // ---------------------------------------------------------------------------
  // Extracting the items of a submission

  /** Python's `s[k:]`: empty when the string is shorter than `k`. */
  function Drop(s: string, k: nat): (r: string)
    ensures |s| <= k ==> r == []
    ensures k <= |s| ==> s == s[..k] + r
  {
    if k <= |s| then s[k..] else []
  }

  /** The list comprehension `[line.strip() for line in lines]`. */
  function StripAll(lines: seq<string>): (r: seq<string>)
    ensures |r| == |lines|
    ensures forall i :: 0 <= i < |lines| ==> r[i] == Strip(lines[i])
  {
    if lines == [] then [] else [Strip(lines[0])] + StripAll(lines[1..])
  }

  /** What can be stored: one line with no white space at either end. */
  predicate IsItem(s: string) {
    '\n' !in s && IsStripped(s)
  }

  lemma StripAllItems(lines: seq<string>)
    requires SingleLines(lines)
    ensures forall i :: 0 <= i < |StripAll(lines)| ==> IsItem(StripAll(lines)[i])
  {
    forall i | 0 <= i < |lines| ensures IsItem(Strip(lines[i])) {
      StripKeepsOut(lines[i], '\n');
      StripFixpoint(lines[i]);
    }
  }

  /** The items of a submission: every line after the first when the text has
      a line break, otherwise the text from `offset` on; each line stripped. */
  function ExtractItems(text: string, offset: nat): (items: seq<string>)
    ensures forall i :: 0 <= i < |items| ==> IsItem(items[i])
    ensures '\n' in text ==> |items| == Occurrences(text, '\n')
    ensures '\n' !in text ==> items == [Strip(Drop(text, offset))]
  {
    var lines := if '\n' in text then Split(text, '\n')[1..] else [Drop(text, offset)];
    StripAllItems(lines);
    StripAll(lines)
  }

  /** A message made of a first line and the item lines below it yields the
      item lines, stripped and in order; the first line is discarded. */
  lemma MultiLineItems(first: string, lines: seq<string>, offset: nat)
    requires '\n' !in first
    requires |lines| >= 1
    requires SingleLines(lines)
    ensures ExtractItems(first + "\n" + Join(lines, "\n"), offset) == StripAll(lines)
  {
    var text := first + "\n" + Join(lines, "\n");
    assert text[|first|] == '\n';
    SplitAtFirst(first, '\n', Join(lines, "\n"));
    SplitJoin(lines, '\n');
    assert Split(text, '\n')[1..] == lines;
  }

  /** Every text with a line break is a first line followed by item lines, so
      `MultiLineItems` gives the items of every multi-line submission: the
      lines after the first, stripped and in order. */
  lemma MultiLineShape(text: string, offset: nat) returns (first: string, lines: seq<string>)
    requires '\n' in text
    ensures text == first + "\n" + Join(lines, "\n")
    ensures '\n' !in first && |lines| >= 1 && SingleLines(lines)
    ensures ExtractItems(text, offset) == StripAll(lines)
  {
    var parts := Split(text, '\n');
    OccursCounted(text, '\n');
    JoinSplit(text, '\n');
    first, lines := parts[0], parts[1..];
    assert Join(parts, "\n") == first + "\n" + Join(lines, "\n");
    MultiLineItems(first, lines, offset);
  }

  /** A one-line message yields one item: what follows the command and the one
      separator character after it, stripped. */
  lemma OneLineItem(command: string, separator: char, rest: string)
    requires '\n' !in command + [separator] + rest
    ensures ExtractItems(command + [separator] + rest, |command| + 1) == [Strip(rest)]
  {
    var text := command + [separator] + rest;
    assert text[|command| + 1..] == rest;
  }

  /** A one-line trade or looking-for submission keeps what follows the
      command and one separator; the bare command stores one empty item. */
  lemma CommandOffsets(separator: char, rest: string)
    ensures '\n' !in TradePrefix + [separator] + rest ==>
      ExtractItems(TradePrefix + [separator] + rest, TradeOffset) == [Strip(rest)]
    ensures '\n' !in LfPrefix + [separator] + rest ==>
      ExtractItems(LfPrefix + [separator] + rest, LfOffset) == [Strip(rest)]
    ensures ExtractItems(TradePrefix, TradeOffset) == [""]
    ensures ExtractItems(LfPrefix, LfOffset) == [""]
  {
    if '\n' !in TradePrefix + [separator] + rest {
      OneLineItem(TradePrefix, separator, rest);
    }
    if '\n' !in LfPrefix + [separator] + rest {
      OneLineItem(LfPrefix, separator, rest);
    }
    assert '\n' !in TradePrefix && '\n' !in LfPrefix;
    assert Strip("") == "";
  }

  // ---------------------------------------------------------------------------
  // The per-user lists

  /** `d.get(user, [])`. */
  function Lookup(m: map<int, seq<string>>, user: int): seq<string> {
    if user in m then m[user] else []
  }

  /** Every stored item is a single stripped line. */
  ghost predicate Clean(m: map<int, seq<string>>) {
    forall u, i :: u in m && 0 <= i < |m[u]| ==> IsItem(m[u][i])
  }

  /** `d.setdefault(user, []).extend(items)`: the user's list keeps what it
      held, in order, and the new items follow; nobody else's list changes. */
  function Appended(m: map<int, seq<string>>, user: int, items: seq<string>): (r: map<int, seq<string>>)
    ensures r.Keys == m.Keys + {user}
    ensures |r[user]| == |Lookup(m, user)| + |items|
    ensures r[user][..|Lookup(m, user)|] == Lookup(m, user)
    ensures r[user][|Lookup(m, user)|..] == items
    ensures forall u :: u in m && u != user ==> r[u] == m[u]
  {
    var r := m[user := Lookup(m, user) + items];
    assert r[user][..|Lookup(m, user)|] == Lookup(m, user);
    r
  }

  /** Appending single stripped lines keeps every stored item one. */
  lemma AppendedClean(m: map<int, seq<string>>, user: int, items: seq<string>)
    requires Clean(m)
    requires forall i :: 0 <= i < |items| ==> IsItem(items[i])
    ensures Clean(Appended(m, user, items))
  {
    var r := Appended(m, user, items);
    forall u, i | u in r && 0 <= i < |r[u]| ensures IsItem(r[u][i]) {
      if u == user {
        if i < |Lookup(m, user)| {
          assert r[u][i] == r[u][..|Lookup(m, user)|][i];
        } else {
          assert r[u][i] == r[u][|Lookup(m, user)|..][i - |Lookup(m, user)|];
        }
      }
    }
  }

  /** The bulleted lines of a reply, one `- item` per item. */
  function Bullets(items: seq<string>): (r: seq<string>)
    ensures |r| == |items|
    ensures forall i :: 0 <= i < |items| ==> r[i] == "- " + items[i]
  {
    if items == [] then [] else ["- " + items[0]] + Bullets(items[1..])
  }

  /** A show reply: the empty reply when there are no items, otherwise the
      heading line followed by one bullet per item in stored order. */
  function Render(items: seq<string>, heading: string, emptyReply: string): (r: string)
    ensures items == [] ==> r == emptyReply
    ensures items != [] ==> |r| > |heading| && r[..|heading| + 1] == heading + "\n"
  {
    if items == [] then emptyReply
    else
      var r := heading + "\n" + Join(Bullets(items), "\n");
      assert r[..|heading| + 1] == heading + "\n";
      r
  }

  /** Splitting a non-empty reply at its line breaks gives the heading and
      then one bullet per item, when neither holds a line break. */
  lemma RenderLines(items: seq<string>, heading: string, emptyReply: string)
    requires '\n' !in heading
    ensures items != [] && SingleLines(items) ==>
      Split(Render(items, heading, emptyReply), '\n') == [heading] + Bullets(items)
  {
    if items != [] && SingleLines(items) {
      var bullets := Bullets(items);
      assert SingleLines(bullets) by {
        forall i | 0 <= i < |bullets| ensures '\n' !in bullets[i] {
          assert bullets[i] == "- " + items[i];
        }
      }
      SplitAtFirst(heading, '\n', Join(bullets, "\n"));
      SplitJoin(bullets, '\n');
    }
  }

  /** Every stored list is made of single lines. */
  lemma CleanLookup(m: map<int, seq<string>>, user: int)
    ensures Clean(m) ==> SingleLines(Lookup(m, user))
  {
  }

  /** Reading a bullet back gives the item it shows. */
  lemma BulletsReadBack(items: seq<string>)
    ensures |Bullets(items)| == |items|
    ensures forall i :: 0 <= i < |items| ==> Bullets(items)[i][..2] == "- " && Bullets(items)[i][2..] == items[i]
  {
  }

  // ---------------------------------------------------------------------------
  // The bot's state: the module-level dictionaries and sets of the source

  class State {
    /** Trade offers, per user (`offers`). */
    var offers: map<int, seq<string>>
    /** Looking-for requests, per user (`lookings`). */
    var lookings: map<int, seq<string>>
    /** Users who activated a code (`admins`). */
    var admins: set<int>
    /** Activation codes not used yet (`adm_codes`). */
    var admCodes: set<string>

    ghost predicate Valid()
      reads this
    {
      Clean(offers) && Clean(lookings) && admCodes <= InitialCodes
    }

    constructor ()
      ensures Valid()
      ensures offers == map[] && lookings == map[]
      ensures admins == {} && admCodes == InitialCodes
    {
      offers := map[];
      lookings := map[];
      admins := {};
      admCodes := InitialCodes;
    }

    /** `add_trade`: appends the submitted items to the sender's trade list. */
    method AddTrade(user: int, text: string) returns (reply: string)
      requires Valid()
      modifies this
      ensures Valid()
      ensures offers == Appended(old(offers), user, ExtractItems(text, TradeOffset))
      ensures lookings == old(lookings) && admins == old(admins) && admCodes == old(admCodes)
      ensures reply == TradeAdded
    {
      var items := ExtractItems(text, TradeOffset);
      AppendedClean(offers, user, items);
      offers := Appended(offers, user, items);
      reply := TradeAdded;
    }

    /** `add_lf`: appends the submitted items to the sender's looking-for list. */
    method AddLf(user: int, text: string) returns (reply: string)
      requires Valid()
      modifies this
      ensures Valid()
      ensures lookings == Appended(old(lookings), user, ExtractItems(text, LfOffset))
      ensures offers == old(offers) && admins == old(admins) && admCodes == old(admCodes)
      ensures reply == LfAdded
    {
      var items := ExtractItems(text, LfOffset);
      AppendedClean(lookings, user, items);
      lookings := Appended(lookings, user, items);
      reply := LfAdded;
    }

    /** `show_trade`: the same empty reply for a user with no list and for an
        empty list; otherwise the heading and one bullet per stored item. */
    function ShowTrade(user: int): (r: string)
      reads this
      ensures r == TradeEmpty <==> Lookup(offers, user) == []
      ensures Valid() && Lookup(offers, user) != [] ==>
        Split(r, '\n') == [TradeHeading] + Bullets(Lookup(offers, user))
    {
      var items := Lookup(offers, user);
      var r := Render(items, TradeHeading, TradeEmpty);
      assert items != [] ==> r[1] != TradeEmpty[1];
      CleanLookup(offers, user);
      RenderLines(items, TradeHeading, TradeEmpty);
      r
    }

    /** `show_lf`: as `show_trade`, over the looking-for list. */
    function ShowLf(user: int): (r: string)
      reads this
      ensures r == LfEmpty <==> Lookup(lookings, user) == []
      ensures Valid() && Lookup(lookings, user) != [] ==>
        Split(r, '\n') == [LfHeading] + Bullets(Lookup(lookings, user))
    {
      var items := Lookup(lookings, user);
      var r := Render(items, LfHeading, LfEmpty);
      assert items != [] ==> r[0] != LfEmpty[0];
      CleanLookup(lookings, user);
      RenderLines(items, LfHeading, LfEmpty);
      r
    }

    /** `clear_trade`: the sender's trade list becomes empty (the key stays). */
    method ClearTrade(user: int) returns (reply: string)
      requires Valid()
      modifies this
      ensures Valid()
      ensures offers == old(offers)[user := []]
      ensures lookings == old(lookings) && admins == old(admins) && admCodes == old(admCodes)
      ensures ShowTrade(user) == TradeEmpty
      ensures user in old(offers) && old(offers)[user] == [] ==> offers == old(offers)
      ensures reply == TradeCleared
    {
      offers := offers[user := []];
      reply := TradeCleared;
    }

    /** `clear_lf`: the sender's looking-for list becomes empty (the key stays). */
    method ClearLf(user: int) returns (reply: string)
      requires Valid()
      modifies this
      ensures Valid()
      ensures lookings == old(lookings)[user := []]
      ensures offers == old(offers) && admins == old(admins) && admCodes == old(admCodes)
      ensures ShowLf(user) == LfEmpty
      ensures user in old(lookings) && old(lookings)[user] == [] ==> lookings == old(lookings)
      ensures reply == LfCleared
    {
      lookings := lookings[user := []];
      reply := LfCleared;
    }

    /** `activate_admin`: the handler runs only for a text that is one of the
        unused codes; the sender becomes an admin and that code is used up. */
    method ActivateAdmin(user: int, code: string) returns (reply: string)
      requires Valid()
      requires code in admCodes
      modifies this
      ensures Valid()
      ensures admins == old(admins) + {user}
      ensures admCodes == old(admCodes) - {code}
      ensures code !in admCodes && |admCodes| == |old(admCodes)| - 1
      ensures offers == old(offers) && lookings == old(lookings)
      ensures reply == AdminGranted
    {
      admins := admins + {user};
      admCodes := admCodes - {code};
      reply := AdminGranted;
    }
  }

  // ---------------------------------------------------------------------------
  // Submitting and showing together

  lemma {:induction false} BulletsAppend(a: seq<string>, b: seq<string>)
    ensures Bullets(a + b) == Bullets(a) + Bullets(b)
  {
    if a != [] {
      assert (a + b)[1..] == a[1..] + b;
      BulletsAppend(a[1..], b);
    } else {
      assert a + b == b;
    }
  }

  /** The reply shows the items stored before, then the ones appended. */
  lemma ShowAppended(before: seq<string>, items: seq<string>, heading: string, emptyReply: string)
    requires '\n' !in heading
    requires before + items != []
    requires SingleLines(before) && SingleLines(items)
    ensures Split(Render(before + items, heading, emptyReply), '\n') == [heading] + Bullets(before) + Bullets(items)
  {
    var stored := before + items;
    assert SingleLines(stored) by {
      forall i | 0 <= i < |stored| ensures '\n' !in stored[i] {
        if i < |before| {
          assert stored[i] == before[i];
        } else {
          assert stored[i] == items[i - |before|];
        }
      }
    }
    RenderLines(stored, heading, emptyReply);
    BulletsAppend(before, items);
  }

  /** The user's list after an append: what it held, then the new items. */
  lemma AppendedLookup(m: map<int, seq<string>>, user: int, items: seq<string>)
    ensures Lookup(Appended(m, user, items), user) == Lookup(m, user) + items
  {
    var before := Lookup(m, user);
    var stored := Lookup(Appended(m, user, items), user);
    assert stored == stored[..|before|] + stored[|before|..];
  }

  /** After a submission, the show reply lists what the user had, then the
      stripped item lines of the message, each as a bullet. */
  lemma SubmitThenShow(m: map<int, seq<string>>, user: int, first: string, lines: seq<string>,
                       offset: nat, heading: string, emptyReply: string)
    requires Clean(m)
    requires '\n' !in first && '\n' !in heading
    requires |lines| >= 1
    requires SingleLines(lines)
    ensures Split(Render(Lookup(Appended(m, user, ExtractItems(first + "\n" + Join(lines, "\n"), offset)), user),
                         heading, emptyReply), '\n')
         == [heading] + Bullets(Lookup(m, user)) + Bullets(StripAll(lines))
  {
    var items := StripAll(lines);
    MultiLineItems(first, lines, offset);
    AppendedLookup(m, user, items);
    assert SingleLines(items) by {
      StripAllItems(lines);
    }
    CleanLookup(m, user);
    ShowAppended(Lookup(m, user), items, heading, emptyReply);
  }

  /** A one-line trade or looking-for submission of a stripped single-line
      item, written after the command and one space, stores exactly that item. */
  lemma OneLineSubmission(item: string)
    requires '\n' !in item && IsStripped(item)
    ensures ExtractItems(TradePrefix + " " + item, TradeOffset) == [item]
    ensures ExtractItems(LfPrefix + " " + item, LfOffset) == [item]
  {
    assert '\n' !in TradePrefix + [' '] + item;
    assert '\n' !in LfPrefix + [' '] + item;
    OneLineItem(TradePrefix, ' ', item);
    OneLineItem(LfPrefix, ' ', item);
    StripFixpoint(item);
  }

  /** The set examples of the help text (bot.py:96-97), each submitted on
      one line: the offer is shown, then cleared, and the looking-for item
      is kept. */
  method Scenario() {
    var bot := new State();
    var offer := "сет 77 rings set: Top, Mid";
    var wanted := "сет 77 rings set: Mid, Low";
    assert !IsSpace(offer[0]) && !IsSpace(offer[|offer| - 1]);
    assert !IsSpace(wanted[0]) && !IsSpace(wanted[|wanted| - 1]);
    OneLineSubmission(offer);
    OneLineSubmission(wanted);
    var added := bot.AddTrade(7, TradePrefix + " " + offer);
    added := bot.AddLf(7, LfPrefix + " " + wanted);
    assert Lookup(bot.offers, 7) == [offer];
    var shown := bot.ShowTrade(7);
    assert Split(shown, '\n') == [TradeHeading] + Bullets([offer]);
    var cleared := bot.ClearTrade(7);
    assert bot.ShowTrade(7) == TradeEmpty;
    assert Lookup(bot.lookings, 7) == [wanted];
  }
}
