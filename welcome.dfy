/** The welcome screen's greeting: the part of the day chosen from the
    current hour, and the message built from it and the stored user name.
    The hour and the stored name are parameters; reading the clock and the
    browser's storage are not part of this model. */
module Greeting {

  datatype Option<T> = None | Some(value: T)

  datatype DayPart = Morning | Afternoon | Evening

  /** What the screen shows once a session message exists: the greeting
      line and the fixed prompt below it. */
  datatype SessionMessage = SessionMessage(greetingLine: string, prompt: string)

  const SALUTATION: string := "Good "
  const PROMPT: string := "Let's start the session."

  /** Morning from 5 up to noon, afternoon from noon up to 18, evening for
      every other hour (including any hour outside 0..23). */
  function PartOfDay(hour: int): (p: DayPart)
    ensures p == Morning <==> 5 <= hour < 12
    ensures p == Afternoon <==> 12 <= hour < 18
    ensures p == Evening <==> hour < 5 || 18 <= hour
  {
    if hour >= 5 && hour < 12 then Morning
    else if hour >= 12 && hour < 18 then Afternoon
    else Evening
  }

  function PartName(p: DayPart): string
  {
    match p
    case Morning => "morning"
    case Afternoon => "afternoon"
    case Evening => "evening"
  }

  /** A missing stored name reads as the empty string; a present one as
      itself (an empty stored name is the empty string either way). */
  function DisplayName(storedName: Option<string>): (n: string)
    ensures storedName.None? ==> n == ""
    ensures storedName.Some? ==> n == storedName.value
  {
    match storedName
    case None => ""
    case Some(s) => s
  }

  /** The line `Good <part>! <name>.` */
  function GreetingLine(p: DayPart, name: string): string
  {
    SALUTATION + PartName(p) + "! " + name + "."
  }

  /** The session message for the hour of day and the stored name. */
  function MakeSessionMessage(hour: int, storedName: Option<string>): (m: SessionMessage)
    ensures m.prompt == PROMPT
    ensures |m.greetingLine| == |SALUTATION| + |PartName(PartOfDay(hour))| + 3 + |DisplayName(storedName)|
    ensures m.greetingLine[..|SALUTATION|] == SALUTATION
    ensures m.greetingLine[|m.greetingLine| - 1] == '.'
    ensures storedName.None? ==> m.greetingLine == SALUTATION + PartName(PartOfDay(hour)) + "! ."
    // the line reads back as exactly the chosen part of day and the name
    ensures ParseGreetingLine(m.greetingLine) == Some(Parsed(PartOfDay(hour), DisplayName(storedName)))
  {
    ParseGreetingLineInverts(PartOfDay(hour), DisplayName(storedName));
    SessionMessage(GreetingLine(PartOfDay(hour), DisplayName(storedName)), PROMPT)
  }

  /** The parts of a greeting line: the part of day and the name. */
  datatype Parsed = Parsed(part: DayPart, name: string)

  /** Which part name the text starts with, if any. */
  function PartAtStart(s: string): Option<DayPart>
  {
    if PartName(Morning) <= s then Some(Morning)
    else if PartName(Afternoon) <= s then Some(Afternoon)
    else if PartName(Evening) <= s then Some(Evening)
    else None
  }

  /** Reads a line of the form `Good <part>! <name>.` back into its parts. */
  function ParseGreetingLine(line: string): Option<Parsed>
  {
    if !(SALUTATION <= line) then None
    else
      var rest := line[|SALUTATION|..];
      match PartAtStart(rest)
      case None => None
      case Some(p) =>
        var tail := rest[|PartName(p)|..];
        if |tail| >= 3 && tail[..2] == "! " && tail[|tail| - 1] == '.'
        then Some(Parsed(p, tail[2..|tail| - 1]))
        else None
  }

  /** A text that starts with a part name is recognised as that part: the
      three names begin with different letters. */
  lemma PartAtStartOf(p: DayPart, t: string)
    ensures PartAtStart(PartName(p) + t) == Some(p)
  {
    var s := PartName(p) + t;
    assert s[..|PartName(p)|] == PartName(p);
    assert s[0] == PartName(p)[0];
  }

  /** The text after the part name splits into `! `, the name, and `.`. */
  lemma TailOf(name: string)
    ensures var tail := "! " + name + ".";
            |tail| >= 3 && tail[..2] == "! " && tail[|tail| - 1] == '.' && tail[2..|tail| - 1] == name
  {
    var tail := "! " + name + ".";
    assert tail[..2] == "! ";
    assert tail[2..|tail| - 1] == name;
  }

  /** The greeting line determines the part of day and the name it was built
      from: reading it back gives exactly those two. */
  lemma ParseGreetingLineInverts(p: DayPart, name: string)
    ensures ParseGreetingLine(GreetingLine(p, name)) == Some(Parsed(p, name))
  {
    var tail := "! " + name + ".";
    var rest := PartName(p) + tail;
    var line := GreetingLine(p, name);
    assert line == SALUTATION + rest;
    assert SALUTATION <= line;
    assert line[|SALUTATION|..] == rest;
    PartAtStartOf(p, tail);
    assert rest[|PartName(p)|..] == tail;
    TailOf(name);
  }

  /** The message tells the parts of the day apart: for the same name, two
      hours in different parts of the day give different messages. */
  lemma MessagesDistinguishParts(h1: int, h2: int, storedName: Option<string>)
    requires PartOfDay(h1) != PartOfDay(h2)
    ensures MakeSessionMessage(h1, storedName) != MakeSessionMessage(h2, storedName)
  {
    var n := DisplayName(storedName);
    ParseGreetingLineInverts(PartOfDay(h1), n);
    ParseGreetingLineInverts(PartOfDay(h2), n);
  }

  /** Without a stored name, every hour gets exactly one of the three
      greetings, chosen by its range. */
  lemma GreetingsWithoutStoredName(hour: int)
    ensures (5 <= hour < 12 && MakeSessionMessage(hour, None).greetingLine == "Good morning! .")
         || (12 <= hour < 18 && MakeSessionMessage(hour, None).greetingLine == "Good afternoon! .")
         || ((hour < 5 || 18 <= hour) && MakeSessionMessage(hour, None).greetingLine == "Good evening! .")
  {
    var line := MakeSessionMessage(hour, None).greetingLine;
    assert line == SALUTATION + PartName(PartOfDay(hour)) + "! .";
    match PartOfDay(hour)
    case Morning =>
      assert SALUTATION + "morning" + "! ." == "Good morning! .";
    case Afternoon =>
      assert SALUTATION + "afternoon" + "! ." == "Good afternoon! .";
    case Evening =>
      assert SALUTATION + "evening" + "! ." == "Good evening! .";
  }
}
