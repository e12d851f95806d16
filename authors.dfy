/** The two chat participants and `getAuthorByName`, which resolves a stored
    author name to one of them. */
module Authors {
  import Uuid

  /** The chat widget's user record: a first name and an id. */
  datatype User = User(firstName: string, id: string)

  /** The module-level constants `me` and `therapist`. */
  datatype Participants = Participants(me: User, therapist: User)

  /** Builds both constants; each id is a `uuidv4()` made from its own draws. */
  function MakeParticipants(meDraws: seq<Uuid.Nibble>, therapistDraws: seq<Uuid.Nibble>): (p: Participants)
    requires |meDraws| == 31 && |therapistDraws| == 31
    ensures WellFormed(p)
  {
    Participants(User("me", Uuid.Uuid4(meDraws)), User("therapist", Uuid.Uuid4(therapistDraws)))
  }

  /** What every caller relies on: the two identities carry the first names
      "me" and "therapist" and UUID-shaped ids. */
  predicate WellFormed(p: Participants) {
    p.me.firstName == "me" && p.therapist.firstName == "therapist" &&
    Uuid.IsUuidV4(p.me.id) && Uuid.IsUuidV4(p.therapist.id)
  }

  predicate IsUpperAscii(c: char) {
    'A' <= c <= 'Z'
  }

  predicate IsLowerAscii(c: char) {
    'a' <= c <= 'z'
  }

  function LowerAscii(c: char): (l: char)
    ensures !IsUpperAscii(l)
  {
    if IsUpperAscii(c) then c - 'A' + 'a' else c
  }

  function UpperAscii(c: char): char {
    if IsLowerAscii(c) then c - 'a' + 'A' else c
  }

  /** `s.toLowerCase()` restricted to ASCII letters. */
  function ToLowerCase(s: string): (r: string)
    ensures |r| == |s|
    ensures forall i :: 0 <= i < |s| && !IsUpperAscii(s[i]) ==> r[i] == s[i]
  {
    seq(|s|, i requires 0 <= i < |s| => LowerAscii(s[i]))
  }

  /** `name.toLowerCase() === therapist.firstName ? therapist : me`. */
  function GetAuthorByName(p: Participants, name: string): (u: User)
    ensures u == p.me || u == p.therapist
  {
    if ToLowerCase(name) == p.therapist.firstName then p.therapist else p.me
  }

  /** `s` spells `word` with each letter in either case: the reference
      meaning of a case-insensitive match, stated letter by letter. */
  predicate SpellsIgnoringCase(s: string, word: string) {
    |s| == |word| &&
    forall i :: 0 <= i < |s| ==> s[i] == word[i] || s[i] == UpperAscii(word[i])
  }

  /** Lowercasing gives a word without capitals exactly when the string
      spells that word in some mixture of cases. */
  lemma ToLowerCaseMatches(s: string, word: string)
    requires forall i :: 0 <= i < |word| ==> !IsUpperAscii(word[i])
    ensures ToLowerCase(s) == word <==> SpellsIgnoringCase(s, word)
  {
    if ToLowerCase(s) == word {
      forall i | 0 <= i < |s|
        ensures s[i] == word[i] || s[i] == UpperAscii(word[i])
      {
        assert LowerAscii(s[i]) == word[i];
      }
    }
    if SpellsIgnoringCase(s, word) {
      forall i | 0 <= i < |s|
        ensures ToLowerCase(s)[i] == word[i]
      {
        assert s[i] == word[i] || s[i] == UpperAscii(word[i]);
      }
    }
  }

  /** The therapist identity is chosen exactly for "therapist" in any letter
      case; every other name, "me" and the empty string included, resolves
      to `me`. */
  lemma GetAuthorByNameResolves(p: Participants, name: string)
    requires WellFormed(p)
    ensures GetAuthorByName(p, name) == p.therapist <==> SpellsIgnoringCase(name, "therapist")
    ensures GetAuthorByName(p, name) == p.me <==> !SpellsIgnoringCase(name, "therapist")
  {
    ToLowerCaseMatches(name, "therapist");
    assert p.me != p.therapist by {
      assert |p.me.firstName| != |p.therapist.firstName|;
    }
  }

  /** The names the source itself stores, and the empty string. */
  lemma GetAuthorByNameExamples(p: Participants)
    requires WellFormed(p)
    ensures GetAuthorByName(p, "therapist") == p.therapist
    ensures GetAuthorByName(p, "Therapist") == p.therapist
    ensures GetAuthorByName(p, "THERAPIST") == p.therapist
    ensures GetAuthorByName(p, "me") == p.me
    ensures GetAuthorByName(p, "") == p.me
  {
    GetAuthorByNameResolves(p, "therapist");
    GetAuthorByNameResolves(p, "Therapist");
    GetAuthorByNameResolves(p, "THERAPIST");
    GetAuthorByNameResolves(p, "me");
    GetAuthorByNameResolves(p, "");
  }
}
