/** The command line of a background poll: printed by one session, declared in a file by another, and recognised among
    the processes of the machine. */
module PollCommand {
  import opened Wrappers

  predicate IsSpace(c: char) {
    c == ' ' || c == '\t' || c == '\n' || c == '\r'
  }

  predicate IsAlphanumeric(c: char) {
    'a' <= c <= 'z' || 'A' <= c <= 'Z' || '0' <= c <= '9'
  }

  predicate InIdentity(c: char) {
    IsAlphanumeric(c) || c == '-' || c == '_'
  }

  predicate StartsWith(s: string, prefix: string) {
    |prefix| <= |s| && s[..|prefix|] == prefix
  }

  /** How many characters to the first space. */
  function WordLength(s: string): (n: nat)
    ensures n <= |s|
    ensures forall i :: 0 <= i < n ==> !IsSpace(s[i])
    ensures n < |s| ==> IsSpace(s[n])
  {
    if s == [] || IsSpace(s[0]) then 0 else 1 + WordLength(s[1..])
  }

  /** The words of a line, split at runs of spaces. */
  function Words(s: string): seq<string> {
    if s == [] then []
    else if IsSpace(s[0]) then Words(s[1..])
    else
      var n := WordLength(s);
      [s[..n]] + Words(s[n..])
  }

  function TrimStart(s: string): string {
    if s != [] && IsSpace(s[0]) then TrimStart(s[1..]) else s
  }

  function TrimEnd(s: string): string {
    if s != [] && IsSpace(s[|s| - 1]) then TrimEnd(s[..|s| - 1]) else s
  }

  function Trim(s: string): string {
    TrimEnd(TrimStart(s))
  }

  /** Drops trailing characters that no identity contains. */
  function TrimPunctuation(s: string): string {
    if s != [] && !InIdentity(s[|s| - 1]) then TrimPunctuation(s[..|s| - 1]) else s
  }

  /** The words before a comment. */
  function BeforeComment(words: seq<string>): seq<string> {
    if words == [] || StartsWith(words[0], "#") then [] else [words[0]] + BeforeComment(words[1..])
  }

  function Position(words: seq<string>, w: string): (r: Option<nat>)
    ensures r.Some? ==> r.value < |words| && words[r.value] == w && w !in words[..r.value]
    ensures r.None? ==> w !in words
  {
    if words == [] then None
    else if words[0] == w then Some(0)
    else
      match Position(words[1..], w)
      case Some(i) => Some(i + 1)
      case None => None
  }

  /** The word after the first occurrence of `w`. */
  function WordAfter(words: seq<string>, w: string): Option<string> {
    match Position(words, w)
    case Some(i) => if i + 1 < |words| then Some(words[i + 1]) else None
    case None => None
  }

  /** The value given to a flag in a declaration, unless it is missing, another flag, or nothing but punctuation. */
  function FlagValue(source: string, flag: string): Option<string> {
    match WordAfter(BeforeComment(Words(source)), flag)
    case None => None
    case Some(v) =>
      if StartsWith(v, "--") then None
      else
        var trimmed := TrimPunctuation(v);
        if trimmed == [] then None else Some(trimmed)
  }

  function PollCommand(room: string, model: string, identity: Option<string>): string {
    match identity
    case Some(id) => "cbc poll " + room + " --model " + model + " --as " + id
    case None => "cbc poll " + room + " --model " + model
  }

  /** What follows the last slash. */
  function Basename(s: string): string {
    if s == [] || s[|s| - 1] == '/' then [] else Basename(s[..|s| - 1]) + [s[|s| - 1]]
  }

  /** The command line is a running poll of this room, and of this identity if one is given. */
  predicate PollMatches(cmdline: string, room: string, identity: Option<string>) {
    var words := Words(cmdline);
    && |words| > 0 && Basename(words[0]) == "cbc"
    && |words| > 1 && words[1] == "poll"
    && |words| > 2 && words[2] == room
    && (identity.Some? ==> WordAfter(words, "--as") == identity)
  }

  // ---- words ----

  predicate IsWord(s: string) {
    s != [] && forall c <- s :: !IsSpace(c)
  }

  function Spaced(words: seq<string>): string {
    if words == [] then []
    else if |words| == 1 then words[0]
    else words[0] + " " + Spaced(words[1..])
  }

  lemma {:induction false} WordLengthOfWord(w: string, rest: string)
    requires (forall c <- w :: !IsSpace(c)) && (rest != [] ==> IsSpace(rest[0]))
    ensures WordLength(w + rest) == |w|
  {
    if w != [] {
      assert (w + rest)[1..] == w[1..] + rest;
      WordLengthOfWord(w[1..], rest);
    } else {
      assert w + rest == rest;
    }
  }

  lemma WordsOfWord(w: string, rest: string)
    requires IsWord(w)
    ensures Words(w) == [w]
    ensures Words(w + " " + rest) == [w] + Words(rest)
  {
    WordLengthOfWord(w, []);
    assert w + [] == w && w[..|w|] == w && w[|w|..] == [];
    var s := w + (" " + rest);
    assert s == w + " " + rest;
    WordLengthOfWord(w, " " + rest);
    assert s[..|w|] == w && s[|w|..] == " " + rest;
    assert (" " + rest)[1..] == rest;
    assert !IsSpace(s[0]);
  }

  /** Splitting undoes spacing out. */
  lemma {:induction false} WordsOfSpaced(words: seq<string>)
    requires forall w <- words :: IsWord(w)
    ensures Words(Spaced(words)) == words
  {
    if |words| == 1 {
      WordsOfWord(words[0], []);
      assert words == [words[0]];
    } else if words != [] {
      WordsOfWord(words[0], Spaced(words[1..]));
      WordsOfSpaced(words[1..]);
    }
  }

  function CommandWords(room: string, model: string, identity: Option<string>): seq<string> {
    ["cbc", "poll", room, "--model", model] + match identity case Some(id) => ["--as", id] case None => []
  }

  lemma PrintedWords(room: string, model: string, identity: Option<string>)
    requires IsWord(room) && IsWord(model) && (identity.Some? ==> IsWord(identity.value))
    ensures Words(PollCommand(room, model, identity)) == CommandWords(room, model, identity)
  {
    var words := CommandWords(room, model, identity);
    WordsOfSpaced(words);
    assert PollCommand(room, model, identity) == Spaced(words) by { SpacedCommand(room, model, identity); }
  }

  lemma Flag(word: string, flag: string, spacedFlag: string, rest: string)
    requires spacedFlag == " " + flag + " "
    ensures word + (spacedFlag + rest) == word + " " + (flag + " " + rest)
  {
  }

  lemma Regroup(a: string, b: string, c: string, d: string, e: string, f: string)
    ensures a + b + c + d == a + (b + (c + d))
    ensures a + b + c + d + e + f == a + (b + (c + (d + (e + f))))
  {
  }

  lemma SpacedPair(a: string, b: string, rest: seq<string>)
    requires rest != []
    ensures Spaced([a, b] + rest) == a + " " + (b + " " + Spaced(rest))
  {
    assert ([a, b] + rest)[1..] == [b] + rest && ([b] + rest)[1..] == rest;
  }

  lemma Literals()
    ensures "cbc" + " poll " == "cbc poll " && " poll " == " " + "poll" + " "
    ensures " --model " == " " + "--model" + " " && " --as " == " " + "--as" + " "
  {
  }

  /** The printed text, whatever its fixed words are. */
  lemma SpacedText(cbc: string, poll: string, room: string, flag: string, model: string, as': string, identity: string,
                   head: string, spacedPoll: string, spacedFlag: string, spacedAs: string)
    requires head == cbc + spacedPoll && spacedPoll == " " + poll + " "
    requires spacedFlag == " " + flag + " " && spacedAs == " " + as' + " "
    ensures head + room + spacedFlag + model == Spaced([cbc, poll, room, flag, model])
    ensures head + room + spacedFlag + model + spacedAs + identity
      == Spaced([cbc, poll, room, flag, model, as', identity])
  {
    var long := model + (spacedAs + identity);
    Regroup(head, room, spacedFlag, model, spacedAs, identity);
    SpacedPair(model, as', [identity]);
    Flag(model, as', spacedAs, identity);
    assert [model, as'] + [identity] == [model, as', identity];
    forall tail, text | tail != [] && Spaced(tail) == text
      ensures head + (room + (spacedFlag + text)) == Spaced([cbc, poll] + ([room, flag] + tail))
    {
      SpacedPair(room, flag, tail);
      Flag(room, flag, spacedFlag, text);
      SpacedPair(cbc, poll, [room, flag] + tail);
      var inner := room + (spacedFlag + text);
      Flag(cbc, poll, spacedPoll, inner);
      assert head + inner == cbc + (spacedPoll + inner);
    }
    assert [cbc, poll] + ([room, flag] + [model]) == [cbc, poll, room, flag, model];
    assert [cbc, poll] + ([room, flag] + [model, as', identity]) == [cbc, poll, room, flag, model, as', identity];
    assert Spaced([model]) == model && Spaced([model, as', identity]) == long;
  }

  lemma SpacedCommand(room: string, model: string, identity: Option<string>)
    ensures PollCommand(room, model, identity) == Spaced(CommandWords(room, model, identity))
  {
    Literals();
    assert identity.Some? ==>
        CommandWords(room, model, identity) == ["cbc", "poll", room, "--model", model, "--as", identity.value];
    assert identity.None? ==> CommandWords(room, model, identity) == ["cbc", "poll", room, "--model", model];
    hide Spaced, CommandWords;
    SpacedText("cbc", "poll", room, "--model", model, "--as", if identity.Some? then identity.value else "",
               "cbc poll ", " poll ", " --model ", " --as ");
  }

  // ---- a printed command is recognised ----

  /** Which identity the recogniser reads off a printed command: a room or model spelt like the flag misleads it. */
  function ReadIdentity(room: string, model: string, identity: string): string {
    if room == "--as" then "--model" else if model == "--as" then "--as" else identity
  }

  lemma PositionIs(words: seq<string>, w: string, i: nat)
    requires i < |words| && words[i] == w && w !in words[..i]
    ensures Position(words, w) == Some(i)
  {
    assert w in words;
  }

  lemma CbcIsItself()
    ensures Basename("cbc") == "cbc"
  {
    assert "cbc"[..2] == "cb" && "cb"[..1] == "c" && "c"[..0] == "";
    assert Basename("c") == "c";
    assert Basename("cb") == "cb";
  }

  /** A printed command is recognised as the poll of its own room and of the identity read off it, and as no other. */
  lemma PrintedMatches(room: string, model: string, identity: string, room': string, identity': string)
    requires IsWord(room) && IsWord(model) && IsWord(identity)
    ensures PollMatches(PollCommand(room, model, Some(identity)), room', Some(identity'))
            <==> room' == room && identity' == ReadIdentity(room, model, identity)
    ensures PollMatches(PollCommand(room, model, Some(identity)), room', None) <==> room' == room
  {
    PrintedWords(room, model, Some(identity));
    var words := CommandWords(room, model, Some(identity));
    assert words == ["cbc", "poll", room, "--model", model, "--as", identity];
    PositionIs(words, "--as", if room == "--as" then 2 else if model == "--as" then 4 else 5);
    CbcIsItself();
    hide PollCommand, CommandWords, Basename, Position, Words, IsWord;
    assert words[0] == "cbc" && words[1] == "poll" && words[2] == room;
  }

  /** So a session finds its own poll exactly unless the room or the model is spelt like the flag itself. */
  lemma PrintedFindsItself(room: string, model: string, identity: string)
    requires IsWord(room) && IsWord(model) && IsWord(identity)
    ensures PollMatches(PollCommand(room, model, Some(identity)), room, Some(identity))
            <==> (room != "--as" || identity == "--model") && (room == "--as" || model != "--as" || identity == "--as")
  {
    PrintedMatches(room, model, identity, room, identity);
  }

  /** No command line is the poll of two pairs. */
  lemma MatchesOnePair(cmdline: string, room: string, identity: string, room': string, identity': string)
    requires PollMatches(cmdline, room, Some(identity)) && PollMatches(cmdline, room', Some(identity'))
    ensures room == room' && identity == identity'
  {
  }

  // ---- declarations ----

  datatype Connection = Connection(name: string, room: string, identity: Option<string>, model: string)

  function FirstColon(s: string): (r: Option<nat>)
    ensures r.Some? ==> r.value < |s| && s[r.value] == ':'
  {
    if s == [] then None
    else if s[0] == ':' then Some(0)
    else
      match FirstColon(s[1..])
      case Some(i) => Some(i + 1)
      case None => None
  }

  /** An entry `name: room [--as identity] [--model model]`. */
  function Entry(trimmed: string): Option<Connection> {
    match FirstColon(trimmed)
    case None => None
    case Some(colon) =>
      var rest := Trim(trimmed[colon + 1..]);
      var words := Words(rest);
      if words == [] then None
      else
        var model := FlagValue(rest, "--model");
        Some(Connection(Trim(trimmed[..colon]), words[0], FlagValue(rest, "--as"),
                        if model.Some? then model.value else "<model>"))
  }

  const HEADER := "connections:"

  /** The entries of the indented blocks under a header, in order. */
  function Parse(lines: seq<string>, inBlock: bool): seq<Connection> {
    if lines == [] then []
    else
      var line, rest := lines[0], lines[1..];
      var trimmed := Trim(line);
      if trimmed == HEADER then Parse(rest, true)
      else if !inBlock then Parse(rest, false)
      else if trimmed == [] then Parse(rest, true)
      else if !StartsWith(line, " ") && !StartsWith(line, "\t") then Parse(rest, false)
      else
        (match Entry(trimmed)
         case Some(c) => [c]
         case None => []) + Parse(rest, true)
  }

  method ParseConnections(lines: seq<string>) returns (conns: seq<Connection>)
    ensures conns == Parse(lines, false)
  {
    conns := [];
    var inBlock := false;
    hide Trim, StartsWith, Entry;
    for i := 0 to |lines|
      invariant Parse(lines, false) == conns + Parse(lines[i..], inBlock)
    {
      var line := lines[i];
      var trimmed := Trim(line);
      assert lines[i..][0] == line && lines[i..][1..] == lines[i + 1..];
      if trimmed == HEADER {
        inBlock := true;
      } else if inBlock && trimmed != [] {
        if !StartsWith(line, " ") && !StartsWith(line, "\t") {
          inBlock := false;
        } else {
          var entry := Entry(trimmed);
          if entry.Some? {
            conns := conns + [entry.value];
          }
        }
      }
    }
  }

  /** Letters, digits, `-` and `_`, and not spelt like a flag. */
  predicate Slug(s: string) {
    s != [] && (forall c <- s :: InIdentity(c)) && !StartsWith(s, "--")
  }

  predicate Sluggish(c: Connection) {
    Slug(c.name) && Slug(c.room) && Slug(c.model) && (c.identity.Some? ==> Slug(c.identity.value))
  }

  function Flags(c: Connection): seq<string> {
    (match c.identity case Some(id) => ["--as", id] case None => []) + ["--model", c.model]
  }

  /** The line that declares a connection. */
  function Declare(c: Connection): string {
    "  " + c.name + ": " + Spaced([c.room] + Flags(c))
  }

  function DeclareAll(conns: seq<Connection>): seq<string> {
    if conns == [] then [] else [Declare(conns[0])] + DeclareAll(conns[1..])
  }

  lemma {:induction false} SpacedEnds(words: seq<string>)
    requires words != [] && forall i :: 0 <= i < |words| ==> IsWord(words[i])
    ensures var s := Spaced(words);
      IsWord(words[|words| - 1]) && s != [] && !IsSpace(s[0]) && s[|s| - 1] == Last(words[|words| - 1])
  {
    assert IsWord(words[0]) && words[0][0] in words[0];
    if |words| > 1 { SpacedEnds(words[1..]); }
  }

  function Last(w: string): char
    requires w != []
  {
    w[|w| - 1]
  }

  lemma TrimKeeps(s: string)
    requires s != [] && !IsSpace(s[0]) && !IsSpace(s[|s| - 1])
    ensures Trim(s) == s && Trim(" " + s) == s && Trim("  " + s) == s
  {
    assert (" " + s)[1..] == s && ("  " + s)[1..] == " " + s;
  }

  lemma {:induction false} ColonAfterSlug(name: string, rest: string)
    requires forall c <- name :: InIdentity(c)
    ensures FirstColon(name + ":" + rest) == Some(|name|)
  {
    if name != [] {
      assert (name + ":" + rest)[1..] == name[1..] + ":" + rest;
      assert InIdentity(name[0]);
      ColonAfterSlug(name[1..], rest);
    }
  }

  lemma SlugIsWord(s: string)
    requires Slug(s)
    ensures IsWord(s) && s != "--as" && s != "--model" && Plain(s) && TrimPunctuation(s) == s
  {
    assert InIdentity(s[0]) && InIdentity(s[|s| - 1]);
  }

  lemma {:induction false} NoComment(words: seq<string>)
    requires forall w <- words :: !StartsWith(w, "#")
    ensures BeforeComment(words) == words
  {
    if words != [] { NoComment(words[1..]); }
  }

  predicate Plain(w: string) {
    IsWord(w) && !StartsWith(w, "#")
  }

  /** The flags of an entry are found, whatever they are spelt like. */
  lemma FlagPositions(room: string, model: string, identity: string, as': string, flag: string)
    requires Plain(room) && Plain(model) && Plain(identity) && Plain(as') && Plain(flag)
    requires room != as' && room != flag && identity != flag && model != as' && as' != flag
    ensures var words := [room, as', identity, flag, model];
      WordAfter(words, as') == Some(identity) && WordAfter(words, flag) == Some(model) && BeforeComment(words) == words
    ensures var words := [room, flag, model];
      WordAfter(words, as') == None && WordAfter(words, flag) == Some(model) && BeforeComment(words) == words
  {
    PositionIs([room, as', identity, flag, model], as', 1);
    PositionIs([room, as', identity, flag, model], flag, 3);
    PositionIs([room, flag, model], flag, 1);
    NoComment([room, as', identity, flag, model]);
    NoComment([room, flag, model]);
    hide Position, BeforeComment, Plain;
  }

  lemma FlagsArePlain()
    ensures Plain("--as") && Plain("--model") && "--as" != "--model"
  {
    assert "--as"[..1] == "-" && "--model"[..1] == "-";
  }

  lemma ReadsFlags(c: Connection)
    requires Sluggish(c)
    ensures var words := [c.room] + Flags(c);
      && (forall i :: 0 <= i < |words| ==> IsWord(words[i])) && BeforeComment(words) == words
      && WordAfter(words, "--as") == c.identity && WordAfter(words, "--model") == Some(c.model)
  {
    hide Slug, StartsWith, TrimPunctuation, BeforeComment, WordAfter;
    SlugIsWord(c.room);
    SlugIsWord(c.model);
    if c.identity.Some? { SlugIsWord(c.identity.value); }
    FlagsArePlain();
    var id := if c.identity.Some? then c.identity.value else c.room;
    FlagPositions(c.room, c.model, id, "--as", "--model");
    EntryWords(c);
    hide IsWord, Flags;
  }

  lemma EntryWords(c: Connection)
    ensures c.identity.Some? ==> [c.room] + Flags(c) == [c.room, "--as", c.identity.value, "--model", c.model]
    ensures c.identity.None? ==> [c.room] + Flags(c) == [c.room, "--model", c.model]
  {
  }

  /** The value after a flag survives the trimming. */
  lemma FlagRead(words: seq<string>, flag: string, value: string)
    requires (forall i :: 0 <= i < |words| ==> IsWord(words[i])) && BeforeComment(words) == words
    requires WordAfter(words, flag) == Some(value) && Slug(value)
    ensures FlagValue(Spaced(words), flag) == Some(value)
  {
    WordsOfSpaced(words);
    SlugIsWord(value);
  }

  lemma FlagMissing(words: seq<string>, flag: string)
    requires (forall i :: 0 <= i < |words| ==> IsWord(words[i])) && BeforeComment(words) == words
    requires WordAfter(words, flag) == None
    ensures FlagValue(Spaced(words), flag) == None
  {
    WordsOfSpaced(words);
  }

  /** The text after the room's name is read back word for word. */
  lemma ReadsRest(c: Connection)
    requires Sluggish(c)
    ensures var words := [c.room] + Flags(c);
      var rest := Spaced(words);
      && Words(rest) == words && Trim(" " + rest) == rest && rest != [] && InIdentity(rest[|rest| - 1])
      && FlagValue(rest, "--as") == c.identity && FlagValue(rest, "--model") == Some(c.model)
  {
    var words := [c.room] + Flags(c);
    ReadsFlags(c);
    WordsOfSpaced(words);
    SpacedEnds(words);
    FlagRead(words, "--model", c.model);
    if c.identity.Some? { FlagRead(words, "--as", c.identity.value); } else { FlagMissing(words, "--as"); }
    assert words[|words| - 1] == c.model && InIdentity(c.model[|c.model| - 1]);
    TrimKeeps(Spaced(words));
    hide Spaced, Words, FlagValue, Trim, BeforeComment, WordAfter;
  }

  /** A name, a colon and the rest come apart again. */
  lemma EntryOf(name: string, rest: string)
    requires Slug(name) && Trim(" " + rest) == rest && Words(rest) != [] && FlagValue(rest, "--model").Some?
    ensures Entry(name + ":" + (" " + rest))
            == Some(Connection(name, Words(rest)[0], FlagValue(rest, "--as"), FlagValue(rest, "--model").value))
  {
    var body := name + ":" + (" " + rest);
    ColonAfterSlug(name, " " + rest);
    assert body[..|name|] == name && body[|name| + 1..] == " " + rest;
    assert InIdentity(name[0]) && InIdentity(name[|name| - 1]);
    TrimKeeps(name);
    hide Trim, Words, FlagValue, FirstColon, StartsWith;
  }

  lemma LineOf(name: string, rest: string)
    requires Slug(name) && rest != [] && InIdentity(rest[|rest| - 1])
    ensures var body := name + ":" + (" " + rest);
      Trim("  " + body) == body && StartsWith("  " + body, " ") && body != HEADER && body != []
  {
    var body := name + ":" + (" " + rest);
    assert InIdentity(name[0]) && body[0] == name[0] && body[|body| - 1] == rest[|rest| - 1];
    TrimKeeps(body);
    hide Trim;
    assert HEADER[|HEADER| - 1] == ':';
  }

  lemma ReadsDeclaration(c: Connection)
    requires Sluggish(c)
    ensures var line := Declare(c);
      Entry(Trim(line)) == Some(c) && StartsWith(line, " ") && Trim(line) != HEADER && Trim(line) != []
  {
    var rest := Spaced([c.room] + Flags(c));
    ReadsRest(c);
    EntryOf(c.name, rest);
    LineOf(c.name, rest);
    DeclareText("  ", c.name, ": ", rest);
    hide Spaced, Words, FlagValue, Flags, Entry, Trim, StartsWith, Slug;
  }

  lemma DeclareText(pad: string, name: string, separator: string, rest: string)
    requires separator == ":" + " "
    ensures pad + name + separator + rest == pad + (name + ":" + (" " + rest))
  {
  }

  lemma {:induction false} ParsesAll(conns: seq<Connection>)
    requires forall c <- conns :: Sluggish(c)
    ensures Parse(DeclareAll(conns), true) == conns
  {
    if conns != [] {
      ReadsDeclaration(conns[0]);
      ParsesAll(conns[1..]);
      assert DeclareAll(conns)[1..] == DeclareAll(conns[1..]);
      hide Entry, Trim, Declare;
    }
  }

  /** Declared connections are read back as they were, all of them and in order. */
  lemma DeclarationsRoundTrip(conns: seq<Connection>)
    requires forall c <- conns :: Sluggish(c)
    ensures Parse([HEADER] + DeclareAll(conns), false) == conns
  {
    ParsesAll(conns);
    assert ([HEADER] + DeclareAll(conns))[1..] == DeclareAll(conns);
    TrimKeeps(HEADER);
  }

  /** From the file to the process table: the command printed for a connection that was declared, read and printed is
      recognised for its own room and identity, and for no other. */
  lemma DeclaredIsRecognised(c: Connection, room: string, identity: string)
    requires Sluggish(c) && c.identity.Some?
    ensures Parse([HEADER, Declare(c)], false) == [c]
    ensures PollMatches(PollCommand(c.room, c.model, c.identity), room, Some(identity))
            <==> room == c.room && Some(identity) == c.identity
  {
    DeclarationsRoundTrip([c]);
    assert DeclareAll([c]) == [Declare(c)];
    assert [HEADER] + DeclareAll([c]) == [HEADER, Declare(c)];
    SlugIsWord(c.room);
    SlugIsWord(c.model);
    SlugIsWord(c.identity.value);
    PrintedMatches(c.room, c.model, c.identity.value, room, identity);
  }
}
