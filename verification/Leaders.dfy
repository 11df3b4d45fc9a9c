/**
The playable leaders of sow-data/src/leaders.rs and the three spellings of each:
the catalog id, the id used on the wire, and the name shown to players. What a
client or a stored profile says is compared after dropping everything but ASCII
letters and digits and ignoring case (sow-data/src/commerce.rs).
*/
module Leaders {
  import opened Wrappers

  datatype Leader =
    | Caesar | Cleopatra | Ragnar | SunTzu | Alexander | GenghisKhan
    | RichardTheLionheart | Vercingetorix | Boudica | LadySixSky | Leonidas | Napoleon

  const ALL: seq<Leader> := [
    Caesar, Cleopatra, Ragnar, SunTzu, Alexander, GenghisKhan,
    RichardTheLionheart, Vercingetorix, Boudica, LadySixSky, Leonidas, Napoleon]

  function LeaderId(leader: Leader): string {
    match leader
    case Caesar => "caesar"
    case Cleopatra => "cleopatra"
    case Ragnar => "ragnar"
    case SunTzu => "sun_tzu"
    case Alexander => "alexander"
    case GenghisKhan => "genghis_khan"
    case RichardTheLionheart => "richard_the_lionheart"
    case Vercingetorix => "vercingetorix"
    case Boudica => "boudica"
    case LadySixSky => "lady_six_sky"
    case Leonidas => "leonidas"
    case Napoleon => "napoleon"
  }

  function WireId(leader: Leader): string {
    match leader
    case Caesar => "Caesar"
    case Cleopatra => "Cleopatra"
    case Ragnar => "Ragnar"
    case SunTzu => "SunTzu"
    case Alexander => "Alexander"
    case GenghisKhan => "GenghisKhan"
    case RichardTheLionheart => "RichardTheLionheart"
    case Vercingetorix => "Vercingetorix"
    case Boudica => "Boudica"
    case LadySixSky => "LadySixSky"
    case Leonidas => "Leonidas"
    case Napoleon => "Napoleon"
  }

  function Name(leader: Leader): string {
    match leader
    case SunTzu => "Sun Tzu"
    case GenghisKhan => "Genghis Khan"
    case RichardTheLionheart => "Richard the Lionheart"
    case LadySixSky => "Lady Six Sky"
    case _ => WireId(leader)
  }

  predicate IsAsciiAlphanumeric(c: char) {
    'a' <= c <= 'z' || 'A' <= c <= 'Z' || '0' <= c <= '9'
  }

  function ToAsciiLowercase(c: char): char {
    if 'A' <= c <= 'Z' then c - 'A' + 'a' else c
  }

  /** What is compared of a character. */
  function Compared(c: char): string {
    if IsAsciiAlphanumeric(c) then [ToAsciiLowercase(c)] else ""
  }

  function Normalized(s: string): string {
    if s == "" then "" else Compared(s[0]) + Normalized(s[1..])
  }

  /** Letters are compared without their case, digits as they are, and nothing else at all. */
  lemma ComparedIs(c: char)
    ensures var code := c as int;
            Compared(c) ==
              if 97 <= code <= 122 || 48 <= code <= 57 then [c]
              else if 65 <= code <= 90 then [(code + 32) as char] else ""
  {
  }

  predicate Spells(s: string, leader: Leader) {
    || Normalized(s) == Normalized(LeaderId(leader)) || Normalized(s) == Normalized(WireId(leader))
    || Normalized(s) == Normalized(Name(leader))
  }

  function FirstSpelled(s: string, among: seq<Leader>): Option<Leader> {
    if among == [] then None
    else if Spells(s, among[0]) then Some(among[0])
    else FirstSpelled(s, among[1..])
  }

  function LeaderFromId(s: string): Option<Leader> {
    FirstSpelled(s, ALL)
  }

  // ---- No two leaders share a spelling ----

  // What all spellings of a leader become.
  function Key(leader: Leader): string {
    match leader
    case SunTzu => "suntzu"
    case GenghisKhan => "genghiskhan"
    case RichardTheLionheart => "richardthelionheart"
    case LadySixSky => "ladysixsky"
    case _ => LeaderId(leader)
  }

  lemma IdsDiffer(a: Leader, b: Leader)
    requires LeaderId(a) == LeaderId(b)
    ensures a == b
  {
    assert |LeaderId(a)| == |LeaderId(b)| && LeaderId(a)[0] == LeaderId(b)[0];
  }

  lemma KeysDiffer(a: Leader, b: Leader)
    requires Key(a) == Key(b)
    ensures a == b
  {
    assert |Key(a)| == |Key(b)| && Key(a)[0] == Key(b)[0];
  }

  lemma NormalizedStep(s: string)
    ensures Normalized(s) == if s == "" then "" else Compared(s[0]) + Normalized(s[1..])
  {
  }

  lemma {:induction false} NormalizedJoin(s: string, t: string)
    ensures Normalized(s + t) == Normalized(s) + Normalized(t)
  {
    hide Normalized, Compared;
    NormalizedStep(s);
    if s == "" {
      assert s + t == t;
    } else {
      NormalizedJoin(s[1..], t);
      NormalizedStep(s + t);
      assert (s + t)[1..] == s[1..] + t;
      Regroup(Compared(s[0]), Normalized(s[1..]), Normalized(t));
    }
  }

  lemma Regroup(a: string, b: string, c: string)
    ensures a + (b + c) == a + b + c
  {
  }

  lemma {:induction false} Word(s: string, t: string)
    requires |s| == |t|
    requires forall i :: 0 <= i < |s| ==> IsAsciiAlphanumeric(s[i]) && t[i] == ToAsciiLowercase(s[i])
    ensures Normalized(s) == t
  {
    if s != "" {
      Word(s[1..], t[1..]);
    }
  }

  lemma OneSeparator(between: char)
    requires !IsAsciiAlphanumeric(between)
    ensures Normalized([between]) == ""
  {
    assert [between][1..] == "";
  }

  /** Two words run together, or set apart by an underscore or a blank, are the same. */
  lemma Joined(s: string, t: string)
    ensures Normalized(s + t) == Normalized(s + "_" + t) == Normalized(s + " " + t) == Normalized(s) + Normalized(t)
  {
    hide Normalized;
    OneSeparator('_');
    OneSeparator(' ');
    NormalizedJoin(s, t);
    NormalizedJoin(s + "_", t);
    NormalizedJoin(s, "_");
    NormalizedJoin(s + " ", t);
    NormalizedJoin(s, " ");
  }

  lemma TwoWords(s: string, t: string, key: string)
    requires |key| == |s| + |t|
    requires forall i :: 0 <= i < |s| ==> IsAsciiAlphanumeric(s[i]) && key[i] == ToAsciiLowercase(s[i])
    requires forall i :: 0 <= i < |t| ==> IsAsciiAlphanumeric(t[i]) && key[|s| + i] == ToAsciiLowercase(t[i])
    ensures Normalized(s + t) == Normalized(s + "_" + t) == Normalized(s + " " + t) == key
  {
    hide Normalized, IsAsciiAlphanumeric, ToAsciiLowercase;
    Joined(s, t);
    Word(s, key[..|s|]);
    Word(t, key[|s|..]);
    assert key[..|s|] + key[|s|..] == key;
  }

  lemma ThreeWords(s: string, t: string, u: string, key: string)
    requires |key| == |s| + |t| + |u|
    requires forall i :: 0 <= i < |s| ==> IsAsciiAlphanumeric(s[i]) && key[i] == ToAsciiLowercase(s[i])
    requires forall i :: 0 <= i < |t| ==> IsAsciiAlphanumeric(t[i]) && key[|s| + i] == ToAsciiLowercase(t[i])
    requires forall i :: 0 <= i < |u| ==> IsAsciiAlphanumeric(u[i]) && key[|s| + |t| + i] == ToAsciiLowercase(u[i])
    ensures Normalized(s + t + u) == Normalized(s + "_" + t + "_" + u) == Normalized(s + " " + t + " " + u) == key
  {
    hide Normalized;
    TwoWords(s, t, key[..|s| + |t|]);
    Word(u, key[|s| + |t|..]);
    Joined(s + t, u);
    Joined(s + "_" + t, u);
    Joined(s + " " + t, u);
    assert key == key[..|s| + |t|] + key[|s| + |t|..];
  }

  predicate OneWord(leader: Leader) {
    !leader.SunTzu? && !leader.GenghisKhan? && !leader.RichardTheLionheart? && !leader.LadySixSky?
  }

  lemma IdOfOneWord(leader: Leader)
    requires OneWord(leader)
    ensures Normalized(LeaderId(leader)) == Key(leader)
  {
    hide Normalized;
    Word(LeaderId(leader), Key(leader));
  }

  lemma WireIdOfOneWord(leader: Leader)
    requires OneWord(leader)
    ensures Normalized(WireId(leader)) == Key(leader) && Name(leader) == WireId(leader)
  {
    hide Normalized;
    Word(WireId(leader), Key(leader));
  }

  lemma KeyOfTwoWords(leader: Leader)
    requires leader.SunTzu? || leader.GenghisKhan?
    ensures Normalized(LeaderId(leader)) == Normalized(WireId(leader)) == Normalized(Name(leader)) == Key(leader)
  {
    hide Normalized;
    if leader.SunTzu? {
      TwoWords("sun", "tzu", "suntzu");
      TwoWords("Sun", "Tzu", "suntzu");
      assert "sun" + "_" + "tzu" == "sun_tzu" && "Sun" + "Tzu" == "SunTzu" && "Sun" + " " + "Tzu" == "Sun Tzu";
    } else {
      TwoWords("genghis", "khan", "genghiskhan");
      TwoWords("Genghis", "Khan", "genghiskhan");
      assert "genghis" + "_" + "khan" == "genghis_khan" && "Genghis" + "Khan" == "GenghisKhan";
      assert "Genghis" + " " + "Khan" == "Genghis Khan";
    }
  }

  lemma KeyOfLadySixSky()
    ensures Normalized("lady_six_sky") == Normalized("LadySixSky") == Normalized("Lady Six Sky") == "ladysixsky"
  {
    hide Normalized;
    ThreeWords("lady", "six", "sky", "ladysixsky");
    ThreeWords("Lady", "Six", "Sky", "ladysixsky");
    assert "lady" + "_" + "six" + "_" + "sky" == "lady_six_sky" && "Lady" + "Six" + "Sky" == "LadySixSky";
    assert "Lady" + " " + "Six" + " " + "Sky" == "Lady Six Sky";
  }

  lemma KeyOfRichard()
    ensures Normalized("richard_the_lionheart") == Normalized("RichardTheLionheart") == "richardthelionheart"
  {
    hide Normalized;
    ThreeWords("richard", "the", "lionheart", "richardthelionheart");
    ThreeWords("Richard", "The", "Lionheart", "richardthelionheart");
    assert "richard" + "_" + "the" + "_" + "lionheart" == "richard_the_lionheart";
    assert "Richard" + "The" + "Lionheart" == "RichardTheLionheart";
  }

  lemma KeyOfRichardsName()
    ensures Normalized("Richard the Lionheart") == "richardthelionheart"
  {
    hide Normalized;
    ThreeWords("Richard", "the", "Lionheart", "richardthelionheart");
    assert "Richard" + " " + "the" + " " + "Lionheart" == "Richard the Lionheart";
  }

  lemma SpellingsOf(leader: Leader)
    ensures Normalized(LeaderId(leader)) == Normalized(WireId(leader)) == Normalized(Name(leader)) == Key(leader)
  {
    hide Normalized;
    if OneWord(leader) {
      IdOfOneWord(leader);
      WireIdOfOneWord(leader);
    } else if leader.LadySixSky? {
      KeyOfLadySixSky();
    } else if leader.RichardTheLionheart? {
      KeyOfRichard();
      KeyOfRichardsName();
    } else {
      KeyOfTwoWords(leader);
    }
  }

  lemma {:induction false} FirstSpelledIs(s: string, among: seq<Leader>)
    ensures match FirstSpelled(s, among)
            case Some(leader) => Spells(s, leader)
            case None => forall i :: 0 <= i < |among| ==> !Spells(s, among[i])
  {
    hide Spells;
    if among != [] {
      FirstSpelledIs(s, among[1..]);
    }
  }

  /**
  No two leaders share a spelling: a text names a leader exactly if, but for case and punctuation, it is one of the
  leader's three spellings, and all of those name that leader.
  */
  lemma LeaderFromIdIs(s: string, leader: Leader)
    ensures LeaderFromId(s) == Some(leader) <==> Spells(s, leader)
    ensures LeaderFromId(LeaderId(leader)) == LeaderFromId(WireId(leader)) == LeaderFromId(Name(leader)) == Some(leader)
  {
    hide Normalized, FirstSpelled;
    Resolves(s, leader);
    SpellingsOf(leader);
    Resolves(LeaderId(leader), leader);
    Resolves(WireId(leader), leader);
    Resolves(Name(leader), leader);
  }

  lemma Resolves(s: string, leader: Leader)
    ensures LeaderFromId(s) == Some(leader) <==> Spells(s, leader)
  {
    hide Normalized, FirstSpelled, LeaderId, WireId, Name, Key;
    FirstSpelledIs(s, ALL);
    var place := Place(leader);
    SpellingsOf(leader);
    if LeaderFromId(s).Some? {
      SpellingsOf(LeaderFromId(s).value);
      if Spells(s, leader) {
        KeysDiffer(leader, LeaderFromId(s).value);
      }
    }
  }

  function Place(leader: Leader): (i: nat)
    ensures i < |ALL| && ALL[i] == leader
  {
    match leader
    case Caesar => 0
    case Cleopatra => 1
    case Ragnar => 2
    case SunTzu => 3
    case Alexander => 4
    case GenghisKhan => 5
    case RichardTheLionheart => 6
    case Vercingetorix => 7
    case Boudica => 8
    case LadySixSky => 9
    case Leonidas => 10
    case Napoleon => 11
  }
}
