/** The avatar helpers of the task card: initials from a user name, and
    the assignee row of at most three avatars with a "+N" badge. The same
    initials rule is used on the dashboard, the member panel, the activity
    feed and the task dialog, which differ only in the fallback text. */
module TaskCard {
  import opened Wrappers
  import opened Text

  /** `s.split(' ')`: the pieces between single spaces, empty pieces
      included, so a string of n spaces gives n + 1 pieces. */
  function Split(s: string): (r: seq<string>)
    ensures |r| >= 1
    ensures forall i :: 0 <= i < |r| ==> ' ' !in r[i]
    decreases |s|
  {
    if |s| == 0 then [""]
    else if s[0] == ' ' then [""] + Split(s[1..])
    else
      var rest := Split(s[1..]);
      [[s[0]] + rest[0]] + rest[1..]
  }

  /** `words.join(' ')`. */
  function Join(words: seq<string>): string {
    if |words| == 0 then ""
    else if |words| == 1 then words[0]
    else words[0] + " " + Join(words[1..])
  }

  /** Splitting on spaces and joining with spaces gives back the string. */
  lemma {:induction false} SplitJoin(s: string)
    ensures Join(Split(s)) == s
    decreases |s|
  {
    if |s| == 0 {
    } else if s[0] == ' ' {
      SplitJoin(s[1..]);
      assert s == " " + s[1..];
    } else {
      var rest := Split(s[1..]);
      SplitJoin(s[1..]);
      assert s == [s[0]] + s[1..];
      if |rest| > 1 {
        assert Join(rest) == rest[0] + " " + Join(rest[1..]);
        assert ([[s[0]] + rest[0]] + rest[1..])[1..] == rest[1..];
      }
    }
  }

  /** `words.map(w => w[0]).join('')`: the first character of every piece;
      an empty piece yields `undefined`, which joins as nothing. */
  function FirstChars(words: seq<string>): string {
    if |words| == 0 then ""
    else (if |words[0]| > 0 then [words[0][0]] else "") + FirstChars(words[1..])
  }

  /** The characters of `s` that start a word: not a space, and first or
      right after a space. `afterSpace` says whether the character before
      `s` was a space (or there was none). */
  function WordStarts(s: string, afterSpace: bool): (r: string)
    ensures |r| <= |s|
    ensures forall i :: 0 <= i < |r| ==> r[i] != ' '
  {
    if |s| == 0 then ""
    else (if s[0] != ' ' && afterSpace then [s[0]] else "") + WordStarts(s[1..], s[0] == ' ')
  }

  /** The split-and-map pipeline takes exactly the word-start characters.
      The second half covers a string that continues a word. */
  lemma {:induction false} FirstCharsAreWordStarts(s: string)
    ensures FirstChars(Split(s)) == WordStarts(s, true)
    ensures FirstChars(Split(s)[1..]) == WordStarts(s, false)
    decreases |s|
  {
    if |s| > 0 {
      FirstCharsAreWordStarts(s[1..]);
      var rest := Split(s[1..]);
      if s[0] == ' ' {
        assert Split(s)[1..] == rest;
      } else {
        assert Split(s)[1..] == rest[1..];
        assert FirstChars(Split(s)) == [s[0]] + FirstChars(rest[1..]);
      }
    }
  }

  /** A string without a word start holds nothing but spaces. */
  lemma {:induction false} NoWordStartsIff(s: string)
    ensures WordStarts(s, true) == "" <==> forall i :: 0 <= i < |s| ==> s[i] == ' '
    decreases |s|
  {
    if |s| > 0 {
      NoWordStartsIff(s[1..]);
      if s[0] == ' ' {
        assert WordStarts(s, true) == WordStarts(s[1..], true);
        assert (forall i :: 0 <= i < |s| ==> s[i] == ' ') <==> (forall i :: 0 <= i < |s[1..]| ==> s[1..][i] == ' ');
      }
    }
  }

  /** `name?.split(' ').map(w => w[0]).join('').toUpperCase().slice(0, 2) || fallback`:
      at most two upper-cased word starts, or the fallback when the name is
      missing or holds no word. */
  function Initials(name: Option<string>, fallback: string): (r: string)
    ensures name.None? ==> r == fallback
    ensures name.Some? && WordStarts(name.value, true) == "" ==> r == fallback
    ensures name.Some? && WordStarts(name.value, true) != "" ==>
      var starts := Upper(WordStarts(name.value, true));
      r == starts[..if |starts| < 2 then |starts| else 2]
  {
    match name
    case None => fallback
    case Some(n) =>
      FirstCharsAreWordStarts(n);
      var all := Upper(FirstChars(Split(n)));
      var two := all[..if |all| < 2 then |all| else 2];
      if two == "" then fallback else two
  }

  /** A missing, empty or all-space name gets the fallback; any other name
      gets one or two characters taken from its word starts, none of them a
      space. */
  lemma InitialsOfWords(name: Option<string>, fallback: string)
    ensures name.None? || (forall i :: 0 <= i < |name.value| ==> name.value[i] == ' ') ==>
      Initials(name, fallback) == fallback
    ensures name.Some? && (exists i :: 0 <= i < |name.value| && name.value[i] != ' ') ==>
      && WordStarts(name.value, true) != ""
      && 1 <= |Initials(name, fallback)| <= 2
      && ' ' !in Initials(name, fallback)
      && Initials(name, fallback)[0] == UpperChar(WordStarts(name.value, true)[0])
  {
    if name.Some? {
      NoWordStartsIff(name.value);
    }
  }

  // ------------------------------------------------------ Assignee row

  /** The assignee row: nothing without assignees; otherwise the first three
      assignees' avatars and, past three, a badge counting the rest. */
  datatype AvatarRow = AvatarRow(avatars: seq<string>, overflow: Option<nat>)

  function Avatars(usernames: seq<Option<string>>): (r: Option<AvatarRow>)
    ensures r.None? <==> |usernames| == 0
    ensures r.Some? ==> |r.value.avatars| == if |usernames| < 3 then |usernames| else 3
    ensures r.Some? ==> forall i :: 0 <= i < |r.value.avatars| ==> r.value.avatars[i] == Initials(usernames[i], "?")
    ensures r.Some? ==> (r.value.overflow.Some? <==> |usernames| > 3)
    ensures r.Some? && r.value.overflow.Some? ==> r.value.overflow.value + 3 == |usernames|
  {
    if |usernames| == 0 then None
    else
      var shown := usernames[..if |usernames| < 3 then |usernames| else 3];
      Some(AvatarRow(
        seq(|shown|, i requires 0 <= i < |shown| => Initials(shown[i], "?")),
        if |usernames| > 3 then Some(|usernames| - 3) else None))
  }

  /** Every assignee is accounted for: the avatars plus the badge count
      add up to the number of assignees. */
  lemma AvatarsAccountForAll(usernames: seq<Option<string>>)
    requires |usernames| > 0
    ensures var row := Avatars(usernames).value;
      |row.avatars| + row.overflow.GetOr(0) == |usernames|
  {
  }
}
