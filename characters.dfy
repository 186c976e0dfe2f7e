/** The characters page (characters-page.js): which project ids count as watched,
    which characters that unlocks, the search filter, the avatar initials and the
    count label. The character list itself is a parameter. */
module CharactersPage {
  import opened Wrappers
  import opened Digits
  import opened Progress

  datatype Character = Character(name: string, debut: string, image: Option<string>)

  // ---------------------------------------------------------------------
  // getWatchedIds (characters-page.js:9-43)

  /** From the server (characters-page.js:20-23): an id counts once one of its
      entries has a positive count. */
  method WatchedIdsFromServer(es: seq<ServerEntry>) returns (ids: set<string>)
    ensures forall id :: id in ids <==> exists i :: 0 <= i < |es| && es[i].projectId == id && es[i].count > 0
  {
    ids := {};
    var i := 0;
    while i < |es|
      invariant 0 <= i <= |es|
      invariant forall id :: id in ids <==> exists j :: 0 <= j < i && es[j].projectId == id && es[j].count > 0
    {
      if es[i].count > 0 {
        ids := ids + {es[i].projectId};
      }
      i := i + 1;
    }
  }

  /** A local cache value that counts as watched: `true`, or an entry object with a
      positive count. */
  predicate CountsAsWatched(v: CacheValue) {
    v == Flag(true) || (v.Record? && v.e.count > 0)
  }

  /** From the local cache (characters-page.js:33-39). */
  method WatchedIdsFromCache(saved: seq<(string, CacheValue)>) returns (ids: set<string>)
    ensures forall id :: id in ids <==> exists i :: 0 <= i < |saved| && saved[i].0 == id && CountsAsWatched(saved[i].1)
  {
    ids := {};
    var i := 0;
    while i < |saved|
      invariant 0 <= i <= |saved|
      invariant forall id :: id in ids <==> exists j :: 0 <= j < i && saved[j].0 == id && CountsAsWatched(saved[j].1)
    {
      if CountsAsWatched(saved[i].1) {
        ids := ids + {saved[i].0};
      }
      i := i + 1;
    }
  }

  /** getWatchedIds: the server's entries when a token is present and the request
      succeeded, otherwise the local cache; a cache that does not parse (`None`)
      gives the empty set. */
  method GetWatchedIds(hasToken: bool, response: Option<seq<ServerEntry>>, cache: Option<seq<(string, CacheValue)>>)
    returns (ids: set<string>)
    ensures hasToken && response.Some? ==>
      forall id :: id in ids <==>
        (exists i :: 0 <= i < |response.value| && response.value[i].projectId == id && response.value[i].count > 0)
    ensures !(hasToken && response.Some?) && cache.Some? ==>
      forall id :: id in ids <==>
        (exists i :: 0 <= i < |cache.value| && cache.value[i].0 == id && CountsAsWatched(cache.value[i].1))
    ensures !(hasToken && response.Some?) && cache.None? ==> ids == {}
  {
    if hasToken && response.Some? {
      ids := WatchedIdsFromServer(response.value);
    } else if cache.Some? {
      ids := WatchedIdsFromCache(cache.value);
    } else {
      ids := {};
    }
  }

  /** When every entry's count is positive, the characters page and the map page
      agree on the watched set read from the server. */
  lemma {:induction false} ServerViewsAgree(es: seq<ServerEntry>, id: string)
    requires forall i :: 0 <= i < |es| ==> es[i].count > 0
    ensures id in DecodeServer(Empty, es).entries <==> exists i :: 0 <= i < |es| && es[i].projectId == id
  {
    if es != [] {
      var init := es[..|es| - 1];
      assert forall i :: 0 <= i < |init| ==> init[i] == es[i];
      ServerViewsAgree(init, id);
    }
  }

  /** With the entry objects the map page writes (count at least 1), the two pages
      agree on the watched set read from the local cache. */
  lemma {:induction false} CacheViewsAgree(saved: seq<(string, CacheValue)>, id: string)
    requires forall i :: 0 <= i < |saved| ==> saved[i].1.Record? ==> saved[i].1.e.count > 0
    ensures id in DecodeCache(Empty, saved).entries <==>
      exists i :: 0 <= i < |saved| && saved[i].0 == id && CountsAsWatched(saved[i].1)
  {
    if saved != [] {
      var init := saved[..|saved| - 1];
      assert forall i :: 0 <= i < |init| ==> init[i] == saved[i];
      CacheViewsAgree(init, id);
    }
  }

  // ---------------------------------------------------------------------
  // The unlocked characters (characters-page.js:48)

  /** `characters.filter(c => watchedIds.has(c.debut))`. */
  function Unlocked(cs: seq<Character>, watched: set<string>): (r: seq<Character>)
    ensures |r| <= |cs|
    ensures forall c :: c in r <==> c in cs && c.debut in watched
  {
    if cs == [] then []
    else (if cs[0].debut in watched then [cs[0]] else []) + Unlocked(cs[1..], watched)
  }

  /** The filter works piece by piece, so it keeps the original order. */
  lemma {:induction false} UnlockedKeepsOrder(a: seq<Character>, b: seq<Character>, watched: set<string>)
    ensures Unlocked(a + b, watched) == Unlocked(a, watched) + Unlocked(b, watched)
  {
    if a == [] {
      assert a + b == b;
    } else {
      assert (a + b)[0] == a[0];
      assert (a + b)[1..] == a[1..] + b;
      UnlockedKeepsOrder(a[1..], b, watched);
    }
  }

  /** Watching more never locks a character. */
  lemma {:induction false} UnlockedMonotone(cs: seq<Character>, watched: set<string>, more: set<string>, c: Character)
    requires watched <= more
    ensures c in Unlocked(cs, watched) ==> c in Unlocked(cs, more)
  {
  }

  // ---------------------------------------------------------------------
  // The search (characters-page.js:56-59, 94-96)

  /** `toLowerCase` on one character; only the ASCII letters are mapped. */
  function LowerChar(ch: char): char {
    if 'A' <= ch <= 'Z' then (ch as int + 32) as char else ch
  }

  /** `toUpperCase` on one character; only the ASCII letters are mapped. */
  function UpperChar(ch: char): char {
    if 'a' <= ch <= 'z' then (ch as int - 32) as char else ch
  }

  /** `toLowerCase`: no capital is left, every other character is kept, and each
      capital becomes its own small letter. */
  function Lower(s: string): (r: string)
    ensures |r| == |s| && forall i :: 0 <= i < |s| ==> r[i] == LowerChar(s[i])
    ensures forall i :: 0 <= i < |r| ==> !('A' <= r[i] <= 'Z')
    ensures forall i :: 0 <= i < |s| && !('A' <= s[i] <= 'Z') ==> r[i] == s[i]
    ensures forall i :: 0 <= i < |s| && 'A' <= s[i] <= 'Z' ==> 'a' <= r[i] <= 'z' && UpperChar(r[i]) == s[i]
  {
    seq(|s|, i requires 0 <= i < |s| => LowerChar(s[i]))
  }

  function Upper(s: string): (r: string)
    ensures |r| == |s| && forall i :: 0 <= i < |s| ==> r[i] == UpperChar(s[i])
  {
    seq(|s|, i requires 0 <= i < |s| => UpperChar(s[i]))
  }

  lemma LowerIdempotent(s: string)
    ensures Lower(Lower(s)) == Lower(s)
  {
  }

  /** `s.startsWith(p)`. */
  predicate StartsWith(s: string, p: string) {
    |p| <= |s| && s[..|p|] == p
  }

  /** `sub` occurs in `s` at index `i`. */
  predicate OccursAt(s: string, sub: string, i: int) {
    0 <= i <= |s| - |sub| && s[i..i + |sub|] == sub
  }

  /** `s.includes(sub)`. */
  function Includes(s: string, sub: string): bool
    decreases |s|
  {
    if StartsWith(s, sub) then true
    else if |s| <= |sub| then false
    else Includes(s[1..], sub)
  }

  lemma OccursAtStart(s: string, sub: string)
    ensures OccursAt(s, sub, 0) <==> StartsWith(s, sub)
  {
    if |sub| <= |s| {
      assert s[0..0 + |sub|] == s[..|sub|];
    }
  }

  lemma OccursShifted(s: string, sub: string, i: int)
    requires |s| > 0 && i >= 1
    ensures OccursAt(s, sub, i) <==> OccursAt(s[1..], sub, i - 1)
  {
    if 1 <= i <= |s| - |sub| {
      assert s[1..][i - 1..i - 1 + |sub|] == s[i..i + |sub|];
    }
  }

  /** `includes` finds `sub` exactly when it occurs somewhere in `s`. */
  lemma {:induction false} IncludesMeans(s: string, sub: string)
    ensures Includes(s, sub) <==> exists i :: OccursAt(s, sub, i)
    decreases |s|
  {
    OccursAtStart(s, sub);
    if StartsWith(s, sub) {
    } else if |s| <= |sub| {
      assert forall i :: OccursAt(s, sub, i) ==> i == 0;
    } else {
      IncludesMeans(s[1..], sub);
      if exists i :: OccursAt(s[1..], sub, i) {
        var i :| OccursAt(s[1..], sub, i);
        OccursShifted(s, sub, i + 1);
      }
      if exists i :: OccursAt(s, sub, i) {
        var i :| OccursAt(s, sub, i);
        OccursShifted(s, sub, if i >= 1 then i else 1);
        assert i != 0;
        assert OccursAt(s[1..], sub, i - 1);
      }
    }
  }

  /** The case-insensitive name test of renderGrid. */
  predicate NameMatches(c: Character, filter: string) {
    Includes(Lower(c.name), Lower(filter))
  }

  function NameFilter(cs: seq<Character>, filter: string): (r: seq<Character>)
    ensures |r| <= |cs|
    ensures forall c :: c in r <==> c in cs && NameMatches(c, filter)
  {
    if cs == [] then []
    else (if NameMatches(cs[0], filter) then [cs[0]] else []) + NameFilter(cs[1..], filter)
  }

  /** The empty search shows every unlocked character, in order. */
  lemma {:induction false} EmptyFilterKeepsAll(cs: seq<Character>)
    ensures NameFilter(cs, "") == cs
  {
    if cs != [] {
      assert Lower("") == "";
      assert NameMatches(cs[0], "");
      EmptyFilterKeepsAll(cs[1..]);
    }
  }

  /** The search ignores the case of the query. */
  lemma {:induction false} FilterIgnoresQueryCase(cs: seq<Character>, filter: string)
    ensures NameFilter(cs, Lower(filter)) == NameFilter(cs, filter)
  {
    LowerIdempotent(filter);
    if cs != [] {
      FilterIgnoresQueryCase(cs[1..], filter);
    }
  }

  /** Searching "STARK" finds "Tony Stark", whatever the case. */
  lemma SearchFindsAnyCase()
    ensures NameMatches(Character("Tony Stark", "ironman1", None), "STARK")
  {
    var name := Lower("Tony Stark");
    assert name == "tony stark";
    assert Lower("STARK") == "stark";
    assert OccursAt(name, "stark", 5);
    IncludesMeans(name, "stark");
  }

  /** A query whose first letter the name lacks finds nothing. */
  lemma MissingLetterMisses(s: string, sub: string)
    requires sub != [] && forall i :: 0 <= i < |s| ==> s[i] != sub[0]
    ensures !Includes(s, sub)
  {
    IncludesHasFirstLetter(s, sub);
  }

  lemma IncludesHasFirstLetter(s: string, sub: string)
    requires sub != []
    ensures Includes(s, sub) ==> exists i :: 0 <= i < |s| && s[i] == sub[0]
  {
    IncludesMeans(s, sub);
    if Includes(s, sub) {
      var i :| OccursAt(s, sub, i);
      assert s[i..i + |sub|][0] == s[i];
    }
  }

  /** Searching "hulk" does not find "Tony Stark". */
  lemma SearchSkipsOthers()
    ensures !NameMatches(Character("Tony Stark", "ironman1", None), "hulk")
  {
    var name := Lower("Tony Stark");
    assert name == "tony stark";
    assert Lower("hulk") == "hulk";
    MissingLetterMisses(name, "hulk");
  }

  // ---------------------------------------------------------------------
  // The count label (characters-page.js:51-52, 97-100)

  /** The label: `N of M unlocked` without a search, else `k result` or `k results`. */
  function CountLabel(unlocked: nat, total: nat, filter: string, shown: nat): string {
    if filter != "" then Decimal(shown) + " result" + (if shown != 1 then "s" else "")
    else Decimal(unlocked) + " of " + Decimal(total) + " unlocked"
  }

  /** The label starts with the number it reports, and a search label is plural
      exactly when that number is not 1. */
  lemma CountLabelReads(unlocked: nat, total: nat, filter: string, shown: nat)
    ensures var text := CountLabel(unlocked, total, filter, shown);
      DigitsValue(LeadingDigits(text)) == (if filter != "" then shown else unlocked)
    ensures filter != "" ==> var text := CountLabel(unlocked, total, filter, shown);
      (text[|text| - 1] == 's' <==> shown != 1)
  {
    if filter != "" {
      var tail := " result" + (if shown != 1 then "s" else "");
      assert CountLabel(unlocked, total, filter, shown) == Decimal(shown) + tail;
      LeadingNumber(shown, tail);
    } else {
      var tail := " of " + Decimal(total) + " unlocked";
      assert CountLabel(unlocked, total, filter, shown) == Decimal(unlocked) + tail;
      LeadingNumber(unlocked, tail);
    }
  }

  // ---------------------------------------------------------------------
  // Initials (characters-page.js:78, 81)

  /** `s.split(' ')`: the pieces between spaces, empty ones included. */
  function Split(s: string): (r: seq<string>)
    ensures |r| > 0 && forall i :: 0 <= i < |r| ==> ' ' !in r[i]
    decreases |s|
  {
    if ' ' !in s then [s]
    else
      var k := FirstSpace(s);
      [s[..k]] + Split(s[k + 1..])
  }

  /** The index of the first space. */
  function FirstSpace(s: string): (k: nat)
    requires ' ' in s
    ensures k < |s| && s[k] == ' ' && ' ' !in s[..k]
  {
    if s[0] == ' ' then 0
    else
      var k := FirstSpace(s[1..]) + 1;
      assert s[..k] == [s[0]] + s[1..][..k - 1];
      k
  }

  /** `words.join(' ')`. */
  function Join(ws: seq<string>): string
    requires |ws| > 0
  {
    if |ws| == 1 then ws[0] else ws[0] + " " + Join(ws[1..])
  }

  /** Joining the pieces with spaces gives back the name. */
  lemma {:induction false} JoinSplit(s: string)
    ensures Join(Split(s)) == s
    decreases |s|
  {
    if ' ' in s {
      var k := FirstSpace(s);
      JoinSplit(s[k + 1..]);
      assert Split(s)[1..] == Split(s[k + 1..]);
      assert s == s[..k] + " " + s[k + 1..];
    }
  }

  /** `w[0]` joined: an empty piece contributes nothing (`undefined` joins as ""). */
  function Heads(ws: seq<string>): (r: string)
    ensures |r| <= |ws|
  {
    if ws == [] then "" else (if ws[0] == "" then "" else [ws[0][0]]) + Heads(ws[1..])
  }

  /** The avatar text. */
  function Initials(name: string): (r: string)
    ensures |r| <= 2
  {
    var hs := Heads(Split(name));
    Upper(if |hs| <= 2 then hs else hs[..2])
  }

  /** Each character of the joined heads is the first letter of a non-empty word. */
  lemma {:induction false} HeadIsFirstLetter(ws: seq<string>, k: nat)
    requires k < |Heads(ws)|
    ensures exists i :: 0 <= i < |ws| && ws[i] != "" && Heads(ws)[k] == ws[i][0]
  {
    var h := if ws[0] == "" then "" else [ws[0][0]];
    assert Heads(ws) == h + Heads(ws[1..]);
    if k < |h| {
      assert Heads(ws)[k] == ws[0][0];
    } else {
      HeadIsFirstLetter(ws[1..], k - |h|);
      var i :| 0 <= i < |ws[1..]| && ws[1..][i] != "" && Heads(ws[1..])[k - |h|] == ws[1..][i][0];
      assert ws[i + 1] == ws[1..][i];
    }
  }

  /** Every character of the initials is an upper-cased first letter of a word. */
  lemma InitialsAreFirstLetters(name: string, k: nat)
    requires k < |Initials(name)|
    ensures exists i :: (0 <= i < |Split(name)| && Split(name)[i] != "" &&
      Initials(name)[k] == UpperChar(Split(name)[i][0]))
  {
    HeadIsFirstLetter(Split(name), k);
  }

  /** The first space of `a + " " + b`, when `a` has none, ends `a`. */
  lemma {:induction false} FirstSpaceAfter(a: string, b: string)
    requires ' ' !in a
    ensures FirstSpace(a + " " + b) == |a|
  {
    if a != [] {
      assert (a + " " + b)[1..] == a[1..] + " " + b;
      assert a[0] in a;
      FirstSpaceAfter(a[1..], b);
    }
  }

  /** Splitting peels off the first word. */
  lemma SplitAfter(a: string, b: string)
    requires ' ' !in a
    ensures Split(a + " " + b) == [a] + Split(b)
  {
    FirstSpaceAfter(a, b);
    var s := a + " " + b;
    assert s[|a|] == ' ';
    assert s[..|a|] == a && s[|a| + 1..] == b;
  }

  /** A piece without spaces is a single word. */
  lemma SplitWord(a: string)
    requires ' ' !in a
    ensures Split(a) == [a]
  {
  }

  lemma {:induction false} HeadsConcat(x: seq<string>, y: seq<string>)
    ensures Heads(x + y) == Heads(x) + Heads(y)
  {
    if x == [] {
      assert x + y == y;
    } else {
      assert (x + y)[0] == x[0];
      assert (x + y)[1..] == x[1..] + y;
      HeadsConcat(x[1..], y);
    }
  }

  /** A one-word name gives its first letter. */
  lemma InitialsOfOneWord(a: string)
    requires a != "" && ' ' !in a
    ensures Initials(a) == Upper([a[0]])
  {
    SplitWord(a);
    assert Heads([a]) == [a[0]] + Heads([a][1..]);
  }

  /** Two words give both first letters. */
  lemma InitialsOfTwoWords(a: string, b: string)
    requires a != "" && b != "" && ' ' !in a && ' ' !in b
    ensures Initials(a + " " + b) == Upper([a[0], b[0]])
  {
    SplitAfter(a, b);
    SplitWord(b);
    assert Heads([b]) == [b[0]] + Heads([b][1..]);
    HeadsConcat([a], [b]);
    assert Heads([a]) == [a[0]] + Heads([a][1..]);
    assert [a] + [b] == [a, b];
  }

  /** Further words are cut off after the second letter. */
  lemma InitialsKeepTwo(a: string, b: string, rest: string)
    requires a != "" && b != "" && ' ' !in a && ' ' !in b
    ensures Initials(a + " " + b + " " + rest) == Upper([a[0], b[0]])
  {
    SplitTwoWords(a, b, rest);
    HeadsTwo(a, b, Split(rest));
    var hs := Heads([a, b] + Split(rest));
    assert hs[..2] == [a[0], b[0]];
  }

  lemma SplitTwoWords(a: string, b: string, rest: string)
    requires ' ' !in a && ' ' !in b
    ensures Split(a + " " + b + " " + rest) == [a, b] + Split(rest)
  {
    assert a + " " + b + " " + rest == a + " " + (b + " " + rest);
    SplitAfter(a, b + " " + rest);
    SplitAfter(b, rest);
  }

  lemma HeadsTwo(a: string, b: string, ws: seq<string>)
    requires a != "" && b != ""
    ensures Heads([a, b] + ws) == [a[0], b[0]] + Heads(ws)
  {
    assert ([a, b] + ws)[1..] == [b] + ws;
    assert ([b] + ws)[1..] == ws;
  }

  /** An extra space between two words makes an empty word, which adds no letter. */
  lemma InitialsSkipEmptyWords(a: string, b: string)
    requires a != "" && b != "" && ' ' !in a && ' ' !in b
    ensures Initials(a + "  " + b) == Upper([a[0], b[0]])
  {
    SplitTwoSpaces(a, b);
    HeadsSkipEmpty(a, b);
  }

  lemma SplitTwoSpaces(a: string, b: string)
    requires ' ' !in a && ' ' !in b
    ensures Split(a + "  " + b) == [a, "", b]
  {
    assert a + "  " + b == a + " " + ("" + " " + b);
    SplitAfter(a, "" + " " + b);
    SplitAfter("", b);
    SplitWord(b);
  }

  lemma HeadsSkipEmpty(a: string, b: string)
    requires a != "" && b != ""
    ensures Heads([a, "", b]) == [a[0], b[0]]
  {
    assert Heads([b]) == [b[0]] by { assert [b][1..] == []; }
    assert Heads(["", b]) == [b[0]] by { assert ["", b][1..] == [b]; }
    assert [a, "", b][1..] == ["", b];
  }
}
