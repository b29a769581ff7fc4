/** Mention handling (api/events.go): the second word of a mention picks a
    command, which posts a reply and, for "reset", wipes the store. */
module Events {
  import opened GoRuntime
  import opened KvStore
  import opened Reservations
  import opened RoomView

  /** The command word of a mention: the text is split on single spaces and
      the second piece is the command; a text without a space means "list". */
  function CommandWord(text: string): (cmd: string)
    ensures ' ' !in cmd
    ensures ' ' !in text ==> cmd == "list"
  {
    var message := Split(text, ' ');
    if |message| < 2 then "list" else message[1]
  }

  /** "@bot word" and "@bot word more..." both select `word`. */
  lemma CommandIsSecondWord(mention: string, word: string, rest: string)
    requires ' ' !in mention && ' ' !in word
    ensures CommandWord(mention + " " + word) == word
    ensures CommandWord(mention + " " + word + " " + rest) == word
  {
    SplitAtFirst(mention, word, ' ');
    assert IndexOf(word, ' ') == -1;
    assert mention + " " + word + " " + rest == mention + [' '] + (word + [' '] + rest);
    SplitAtFirst(mention, word + [' '] + rest, ' ');
    SplitAtFirst(word, rest, ' ');
  }

  /** Two spaces after the mention give the empty command, which no case
      matches. */
  lemma DoubleSpaceGivesEmptyCommand(mention: string, rest: string)
    requires ' ' !in mention
    ensures CommandWord(mention + "  " + rest) == ""
  {
    assert mention + "  " + rest == mention + [' '] + ("" + [' '] + rest);
    SplitAtFirst(mention, "" + [' '] + rest, ' ');
    SplitAtFirst("", rest, ' ');
  }

  /** One choice of the room menu: value, label and description. */
  datatype MenuOption = MenuOption(value: string, text: string, description: string)

  /** The menu option of a directory room: its name is both value and label. */
  function OptionOf(room: Room): MenuOption {
    MenuOption(room.name, room.name, room.description)
  }

  /** The room menu of the reservation form: one option per directory room,
      in directory order. */
  method RoomOptions(rooms: seq<Room>) returns (opts: seq<MenuOption>)
    ensures |opts| == |rooms|
    ensures forall i :: 0 <= i < |rooms| ==> opts[i] == OptionOf(rooms[i])
  {
    opts := [];
    var i := 0;
    while i < |rooms|
      invariant 0 <= i <= |rooms|
      invariant |opts| == i
      invariant forall j :: 0 <= j < i ==> opts[j] == OptionOf(rooms[j])
    {
      opts := opts + [OptionOf(rooms[i])];
      i := i + 1;
    }
  }

  /** Every stored pair decoded, in key order; the first pair that does not
      parse stops everything with its panic. */
  function DecodeAll(entries: seq<Entry>): (r: Result<seq<Reserve>>)
    ensures r.Ok? <==> forall i :: 0 <= i < |entries| ==> ParseReserveKV(entries[i].0, entries[i].1).Ok?
    ensures r.Ok? ==> |r.value| == |entries|
    ensures r.Ok? ==> forall i :: 0 <= i < |entries| ==> ParseReserveKV(entries[i].0, entries[i].1) == Ok(r.value[i])
  {
    if |entries| == 0 then Ok([])
    else
      var n := |entries| - 1;
      var init := DecodeAll(entries[..n]);
      var last := ParseReserveKV(entries[n].0, entries[n].1);
      assert forall i :: 0 <= i < n ==> entries[..n][i] == entries[i];
      if init.IndexPanic? || last.IndexPanic? then IndexPanic
      else Ok(init.value + [last.value])
  }

  /** Each pair FormatKV wrote for a separator-free reservation parses back
      to that reservation. */
  lemma WrittenPairsParse(rsvs: seq<Reserve>, dates: seq<string>, seconds: seq<int>, entries: seq<Entry>)
    requires |rsvs| == |dates| == |seconds| == |entries|
    requires forall i :: 0 <= i < |entries| ==>
               entries[i] == FormatKV(rsvs[i], dates[i], seconds[i]) && SeparatorFree(rsvs[i]) && Sep !in dates[i]
    ensures forall i :: 0 <= i < |entries| ==> ParseReserveKV(entries[i].0, entries[i].1) == Ok(rsvs[i])
  {
    forall i | 0 <= i < |entries|
      ensures ParseReserveKV(entries[i].0, entries[i].1) == Ok(rsvs[i])
    {
      FormatParseRoundTrip(rsvs[i], dates[i], seconds[i]);
    }
  }

  /** Pairs written by FormatKV for separator-free reservations list back as
      exactly those reservations, in store order. */
  lemma ListedRoundTrip(rsvs: seq<Reserve>, dates: seq<string>, seconds: seq<int>, entries: seq<Entry>)
    requires |rsvs| == |dates| == |seconds| == |entries|
    requires forall i :: 0 <= i < |entries| ==>
               entries[i] == FormatKV(rsvs[i], dates[i], seconds[i]) && SeparatorFree(rsvs[i]) && Sep !in dates[i]
    ensures DecodeAll(entries) == Ok(rsvs)
  {
    WrittenPairsParse(rsvs, dates, seconds, entries);
    DecodeAllParsed(entries, rsvs);
  }

  /** Pairs that each parse, to rsvs[i] for pair i, list as rsvs. */
  lemma {:induction false} DecodeAllParsed(entries: seq<Entry>, rsvs: seq<Reserve>)
    requires |rsvs| == |entries|
    requires forall i :: 0 <= i < |entries| ==> ParseReserveKV(entries[i].0, entries[i].1) == Ok(rsvs[i])
    ensures DecodeAll(entries) == Ok(rsvs)
    decreases |entries|
  {
    if |entries| > 0 {
      var n := |entries| - 1;
      var init := rsvs[..n];
      assert rsvs == init + [rsvs[n]];
      forall i | 0 <= i < n ensures ParseReserveKV(entries[..n][i].0, entries[..n][i].1) == Ok(init[i]) {
        assert entries[..n][i] == entries[i];
      }
      DecodeAllParsed(entries[..n], init);
    }
  }

  /** The iteration of the "list" command: every pair parsed in key order. */
  method ListReservations(store: Store) returns (res: Result<seq<Reserve>>)
    ensures res == DecodeAll(store.entries)
  {
    var rsvs: seq<Reserve> := [];
    var i := 0;
    while i < |store.entries|
      invariant 0 <= i <= |store.entries|
      invariant DecodeAll(store.entries[..i]) == Ok(rsvs)
    {
      var (k, v) := store.entries[i];
      var newRes := ParseReserveKV(k, v);
      assert store.entries[..i + 1][..i] == store.entries[..i];
      if newRes.IndexPanic? {
        assert !DecodeAll(store.entries[..i + 1]).Ok?;
        assert !DecodeAll(store.entries).Ok?;
        return IndexPanic;
      }
      rsvs := rsvs + [newRes.value];
      i := i + 1;
    }
    assert store.entries[..i] == store.entries;
    return Ok(rsvs);
  }

  /** The first line of the list message, followed by an empty line. */
  function ListHeader(date: string): string {
    date + " の予約状況\n\n"
  }

  const EmptyStoreText: string := "DB が空のようです"

  /** The "list" message for the day `date`: the header, then either the
      empty-store note (nothing stored) or the per-room report of the decoded
      reservations in the order the report's sort left them. */
  method ListMessage(store: Store, date: string, rooms: seq<Room>) returns (msg: Result<string>)
    ensures msg.IndexPanic? <==> DecodeAll(store.entries).IndexPanic?
    ensures msg.Ok? && |store.entries| == 0 ==> msg.value == ListHeader(date) + EmptyStoreText
    ensures msg.Ok? && |store.entries| > 0 ==>
            exists order :: multiset(order) == multiset(DecodeAll(store.entries).value) &&
                            msg.value == ListHeader(date) + ViewByRoom(order, rooms)
  {
    var decoded := ListReservations(store);
    if decoded.IndexPanic? {
      return IndexPanic;
    }
    var res := decoded.value;
    if |res| == 0 {
      return Ok(ListHeader(date) + EmptyStoreText);
    }
    var a := new Reserve[|res|](i requires 0 <= i < |res| => res[i]);
    assert a[..] == res;
    var view := FormatViewByRoom(a, rooms);
    msg := Ok(ListHeader(date) + view);
    assert multiset(a[..]) == multiset(res);
  }

  /** One pair of the "raw" dump: key, separator, value. */
  function RawLine(e: Entry): string {
    e.0 + [Sep] + e.1
  }

  /** The "raw" dump: every pair's line followed by a newline, in key order. */
  function RawText(entries: seq<Entry>): string {
    if |entries| == 0 then ""
    else RawText(entries[..|entries| - 1]) + RawLine(entries[|entries| - 1]) + "\n"
  }

  function RawLines(entries: seq<Entry>): (lines: seq<string>)
    ensures |lines| == |entries|
    ensures forall i :: 0 <= i < |entries| ==> lines[i] == RawLine(entries[i])
  {
    seq(|entries|, i requires 0 <= i < |entries| => RawLine(entries[i]))
  }

  /** The iteration of the "raw" command. */
  method RawDump(store: Store) returns (text: string)
    ensures text == RawText(store.entries)
  {
    text := "";
    var i := 0;
    while i < |store.entries|
      invariant 0 <= i <= |store.entries|
      invariant text == RawText(store.entries[..i])
    {
      var (k, v) := store.entries[i];
      assert store.entries[..i + 1][..i] == store.entries[..i];
      text := text + k + "_" + v + "\n";
      i := i + 1;
    }
    assert store.entries[..i] == store.entries;
  }

  lemma {:induction false} RawTextIsJoin(entries: seq<Entry>)
    ensures RawText(entries) == Join(RawLines(entries) + [""], "\n")
    decreases |entries|
  {
    if |entries| == 0 {
      assert RawLines(entries) + [""] == [""];
    } else {
      var n := |entries| - 1;
      RawTextIsJoin(entries[..n]);
      assert RawLines(entries) == RawLines(entries[..n]) + [RawLine(entries[n])];
      JoinTerminated(RawLines(entries[..n]), RawLine(entries[n]));
    }
  }

  /** One more line before the final empty piece of a newline-terminated join. */
  lemma JoinTerminated(lines: seq<string>, line: string)
    ensures Join(lines + [line] + [""], "\n") == Join(lines + [""], "\n") + line + "\n"
  {
    JoinSnoc(lines + [line], "", "\n");
    if |lines| == 0 {
      assert lines + [line] == [line];
      assert lines + [""] == [""];
    } else {
      JoinSnoc(lines, line, "\n");
      JoinSnoc(lines, "", "\n");
    }
  }

  lemma RawLineHasNoNewline(e: Entry)
    requires '\n' !in e.0 && '\n' !in e.1
    ensures '\n' !in RawLine(e)
  {
  }

  /** When no key or value holds a newline, the dump has one line per pair,
      in key order, and ends with a newline. */
  lemma RawDumpLines(entries: seq<Entry>)
    requires forall i :: 0 <= i < |entries| ==> '\n' !in entries[i].0 && '\n' !in entries[i].1
    ensures Split(RawText(entries), '\n') == RawLines(entries) + [""]
  {
    RawTextIsJoin(entries);
    RawPiecesHaveNoNewline(entries);
    SplitJoin(RawLines(entries) + [""], '\n');
  }

  /** The pieces of the dump, the final empty one included, hold no newline. */
  lemma RawPiecesHaveNoNewline(entries: seq<Entry>)
    requires forall i :: 0 <= i < |entries| ==> '\n' !in entries[i].0 && '\n' !in entries[i].1
    ensures forall i :: 0 <= i < |entries| + 1 ==> '\n' !in (RawLines(entries) + [""])[i]
  {
    var parts := RawLines(entries) + [""];
    forall i | 0 <= i < |parts| ensures '\n' !in parts[i] {
      if i < |entries| {
        RawLineHasNoNewline(entries[i]);
      }
    }
  }

  const ResetText: string := "会議室の予約をリセットしました"

  /** What the bot answers a mention with. */
  datatype Reply =
      // a message posted to the channel
    | Post(text: string)
      // the reservation form, shown to the mentioning user only
    | RoomForm(prompt: string, options: seq<MenuOption>)
      // the "unknown command" note, shown to the mentioning user only
    | UnknownCommand
    | HandlerPanic

  /** handleAppMentionEvent: dispatch on the command word. `date` is the
      current day's "2006-01-02" text. */
  method HandleAppMention(store: Store, text: string, date: string, rooms: seq<Room>) returns (reply: Reply)
    modifies store
    ensures store.entries == if CommandWord(text) == "reset" then [] else old(store.entries)
    ensures CommandWord(text) == "ping" ==> reply == Post("pong")
    ensures CommandWord(text) == "reset" ==> reply == Post(ResetText)
    ensures CommandWord(text) == "raw" ==> reply == Post(RawText(old(store.entries)))
    ensures CommandWord(text) == "reserve" ==>
            reply.RoomForm? && |reply.options| == |rooms| &&
            forall i :: 0 <= i < |rooms| ==> reply.options[i] == OptionOf(rooms[i])
    ensures CommandWord(text) == "list" ==>
            (reply == HandlerPanic <==> DecodeAll(old(store.entries)).IndexPanic?) &&
            (reply.Post? ==> HasPrefix(reply.text, ListHeader(date)))
    ensures CommandWord(text) !in ["ping", "reserve", "list", "raw", "reset"] ==> reply == UnknownCommand
  {
    var command := CommandWord(text);
    if command == "ping" {
      reply := Post("pong");
    } else if command == "reserve" {
      var opts := RoomOptions(rooms);
      reply := RoomForm("利用する部屋を選択してください", opts);
    } else if command == "list" {
      var msg := ListMessage(store, date, rooms);
      if msg.IndexPanic? {
        reply := HandlerPanic;
      } else {
        reply := Post(msg.value);
        assert HasPrefix(msg.value, ListHeader(date)) by {
          assert msg.value[..|ListHeader(date)|] == ListHeader(date);
        }
      }
    } else if command == "raw" {
      var dump := RawDump(store);
      reply := Post(dump);
    } else if command == "reset" {
      store.DropAll();
      reply := Post(ResetText);
    } else {
      reply := UnknownCommand;
    }
  }
}
