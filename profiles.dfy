/** The launcher's saved profiles: the `Profile` record, the one-line text
    form `Username|ServerIP|ServerPort` it is stored in, and the profile table
    (a dictionary from user name to profile) as loading and saving change it. */
module Profiles {
  import opened Wrappers
  import opened Text
  import opened LineFile

  datatype Profile = Profile(username: string, serverIP: string, serverPort: string)

  const Separator: char := '|'

  /** A profile whose fields survive being written to the profiles file and
      read back: no field holds the separator or a line break. */
  predicate IsStorable(p: Profile)
  {
    && Separator !in p.username && Separator !in p.serverIP && Separator !in p.serverPort
    && IsSingleLine(p.username) && IsSingleLine(p.serverIP) && IsSingleLine(p.serverPort)
  }

  /** The line written for one profile. It holds two separators more than its
      fields do. */
  function FormatLine(p: Profile): (line: string)
    ensures Occurrences(line, Separator)
         == Occurrences(p.username, Separator) + Occurrences(p.serverIP, Separator)
            + Occurrences(p.serverPort, Separator) + 2
  {
    OccurrencesAppend(p.username, [Separator], Separator);
    OccurrencesAppend(p.username + [Separator], p.serverIP, Separator);
    OccurrencesAppend(p.username + [Separator] + p.serverIP, [Separator], Separator);
    OccurrencesAppend(p.username + [Separator] + p.serverIP + [Separator], p.serverPort, Separator);
    p.username + [Separator] + p.serverIP + [Separator] + p.serverPort
  }

  /** The line is the three fields joined by the separator. */
  lemma FormatLineIsJoin(p: Profile)
    ensures FormatLine(p) == Join([p.username, p.serverIP, p.serverPort], Separator)
  {
    var parts := [p.username, p.serverIP, p.serverPort];
    assert parts[1..][1..] == [p.serverPort];
    assert Join(parts[1..], Separator) == p.serverIP + [Separator] + p.serverPort;
  }

  /** A line of the profiles file: a profile exactly when splitting on the
      separator gives three parts, and then the line is that profile's line. */
  function ParseLine(line: string): (r: Option<Profile>)
    ensures r.Some? <==> Occurrences(line, Separator) == 2
    ensures r.Some? ==> FormatLine(r.value) == line
  {
    var parts := Split(line, Separator);
    if |parts| == 3 then
      JoinSplit(line, Separator);
      var p := Profile(parts[0], parts[1], parts[2]);
      FormatLineIsJoin(p);
      assert [parts[0], parts[1], parts[2]] == parts;
      Some(p)
    else
      None
  }

  /** Writing a profile and parsing the line gives the profile back exactly
      when no field holds the separator. */
  lemma ParseFormatLine(p: Profile)
    ensures ParseLine(FormatLine(p)) == Some(p)
        <==> Separator !in p.username && Separator !in p.serverIP && Separator !in p.serverPort
  {
    OccurrencesZero(p.username, Separator);
    OccurrencesZero(p.serverIP, Separator);
    OccurrencesZero(p.serverPort, Separator);
    if Separator !in p.username && Separator !in p.serverIP && Separator !in p.serverPort {
      FormatLineIsJoin(p);
      SplitJoin([p.username, p.serverIP, p.serverPort], Separator);
    }
  }

  /** A storable profile's line is a single line of text. */
  lemma FormatLineSingle(p: Profile)
    requires IsStorable(p)
    ensures IsSingleLine(FormatLine(p))
  {
  }

  /** The table invariant: every profile is filed under its own user name. */
  ghost predicate KeysMatch(m: map<string, Profile>)
  {
    forall k :: k in m ==> m[k].username == k
  }

  /** One line of the profiles file applied to the table: a profile replaces
      the entry under its user name, any other line is skipped. */
  function LoadLine(m: map<string, Profile>, line: string): (r: map<string, Profile>)
    ensures Occurrences(line, Separator) != 2 ==> r == m
    ensures KeysMatch(m) ==> KeysMatch(r)
    ensures r.Keys == m.Keys + (if ParseLine(line).Some? then {ParseLine(line).value.username} else {})
  {
    match ParseLine(line)
    case Some(p) => m[p.username := p]
    case None => m
  }

  /** The table after loading `lines` in order into `m`. */
  function LoadLines(m: map<string, Profile>, lines: seq<string>): map<string, Profile>
  {
    if lines == [] then m
    else LoadLine(LoadLines(m, lines[..|lines| - 1]), lines[|lines| - 1])
  }

  /** Whether line `i` of `lines` is a profile filed under `k`. */
  predicate DefinesKey(lines: seq<string>, i: int, k: string)
    requires 0 <= i < |lines|
  {
    ParseLine(lines[i]).Some? && ParseLine(lines[i]).value.username == k
  }

  /** The user names of the lines that are profiles. */
  ghost function LoadedKeys(lines: seq<string>): set<string>
  {
    set i | 0 <= i < |lines| && ParseLine(lines[i]).Some? :: ParseLine(lines[i]).value.username
  }

  /** Loading keeps every profile under its own user name. */
  lemma {:induction false} LoadLinesKeysMatch(m: map<string, Profile>, lines: seq<string>)
    requires KeysMatch(m)
    ensures KeysMatch(LoadLines(m, lines))
  {
    if lines != [] {
      LoadLinesKeysMatch(m, lines[..|lines| - 1]);
    }
  }

  /** The keys after loading are the old keys and the user names of the
      lines that are profiles. */
  lemma {:induction false} LoadLinesKeys(m: map<string, Profile>, lines: seq<string>)
    ensures LoadLines(m, lines).Keys == m.Keys + LoadedKeys(lines)
  {
    if lines != [] {
      var init := lines[..|lines| - 1];
      LoadLinesKeys(m, init);
      var last := |lines| - 1;
      assert forall i :: 0 <= i < last ==> init[i] == lines[i];
      if ParseLine(lines[last]).Some? {
        assert LoadedKeys(lines) == LoadedKeys(init) + {ParseLine(lines[last]).value.username};
      } else {
        assert LoadedKeys(lines) == LoadedKeys(init);
      }
    }
  }

  /** For a user name that several lines define, the last of them wins. */
  lemma {:induction false} LoadLinesLastWins(m: map<string, Profile>, lines: seq<string>, i: int, k: string)
    requires 0 <= i < |lines| && DefinesKey(lines, i, k)
    requires forall j :: i < j < |lines| ==> !DefinesKey(lines, j, k)
    ensures k in LoadLines(m, lines) && LoadLines(m, lines)[k] == ParseLine(lines[i]).value
  {
    var init := lines[..|lines| - 1];
    if i < |lines| - 1 {
      assert forall j :: 0 <= j < |init| ==> init[j] == lines[j] && DefinesKey(init, j, k) == DefinesKey(lines, j, k);
      assert !DefinesKey(lines, |lines| - 1, k);
      LoadLinesLastWins(m, init, i, k);
    }
  }

  /** An entry that no line defines keeps its old value, or stays absent. */
  lemma {:induction false} LoadLinesUntouched(m: map<string, Profile>, lines: seq<string>, k: string)
    requires forall j :: 0 <= j < |lines| ==> !DefinesKey(lines, j, k)
    ensures k in LoadLines(m, lines) <==> k in m
    ensures k in m ==> LoadLines(m, lines)[k] == m[k]
  {
    if lines != [] {
      var init := lines[..|lines| - 1];
      assert forall j :: 0 <= j < |init| ==> init[j] == lines[j] && DefinesKey(init, j, k) == DefinesKey(lines, j, k);
      assert !DefinesKey(lines, |lines| - 1, k);
      LoadLinesUntouched(m, init, k);
    }
  }

  /** The save-profile button on the table: a blank user name leaves it
      unchanged, any other replaces or adds the entry under that name only. */
  function SaveEntry(m: map<string, Profile>, username: string, serverIP: string, serverPort: string)
    : (r: map<string, Profile>)
    ensures IsBlank(username) ==> r == m
    ensures !IsBlank(username) ==>
              r.Keys == m.Keys + {username} && r[username] == Profile(username, serverIP, serverPort)
    ensures forall k :: k in m && k != username ==> k in r && r[k] == m[k]
    ensures KeysMatch(m) ==> KeysMatch(r)
  {
    if IsBlank(username) then m
    else m[username := Profile(username, serverIP, serverPort)]
  }

  /** Saving again the fields that selecting an entry copied out changes
      nothing. */
  lemma SaveSelected(m: map<string, Profile>, k: string)
    requires KeysMatch(m) && k in m
    ensures SaveEntry(m, m[k].username, m[k].serverIP, m[k].serverPort) == m
  {
  }

  /** `order` lists every key of `m` exactly once: an enumeration order of a
      dictionary, which .NET leaves unspecified. */
  ghost predicate IsEnumeration(order: seq<string>, m: map<string, Profile>)
  {
    && (forall i :: 0 <= i < |order| ==> order[i] in m)
    && (forall k :: k in m ==> k in order)
    && (forall i, j :: 0 <= i < j < |order| ==> order[i] != order[j])
  }

  /** The lines that saving `m` in the order `order` writes. */
  function FormatAll(m: map<string, Profile>, order: seq<string>): (lines: seq<string>)
    requires forall i :: 0 <= i < |order| ==> order[i] in m
    ensures |lines| == |order|
  {
    if order == [] then []
    else FormatAll(m, order[..|order| - 1]) + [FormatLine(m[order[|order| - 1]])]
  }

  /** The entries of `m` whose keys appear in `order`. */
  ghost function Restrict(m: map<string, Profile>, order: seq<string>): map<string, Profile>
  {
    map k | k in m && k in order :: m[k]
  }

  /** Loading saved lines into a table puts back the saved entries. */
  lemma {:induction false} LoadFormatted(acc: map<string, Profile>, m: map<string, Profile>, order: seq<string>)
    requires KeysMatch(m)
    requires forall k :: k in m ==> IsStorable(m[k])
    requires forall i :: 0 <= i < |order| ==> order[i] in m
    ensures LoadLines(acc, FormatAll(m, order)) == acc + Restrict(m, order)
  {
    if order == [] {
      assert Restrict(m, order) == map[];
    } else {
      var init := order[..|order| - 1];
      var k := order[|order| - 1];
      var lines := FormatAll(m, order);
      assert lines[..|lines| - 1] == FormatAll(m, init);
      LoadFormatted(acc, m, init);
      ParseFormatLine(m[k]);
      assert forall x :: x in order <==> x in init || x == k;
      assert LoadLines(acc, lines) == (acc + Restrict(m, init))[k := m[k]];
    }
  }

  /** The save/load round trip: reading back the profiles file written for a
      table of storable profiles, in any enumeration order, gives the same
      table. */
  lemma SaveLoadRoundTrip(m: map<string, Profile>, order: seq<string>)
    requires KeysMatch(m)
    requires forall k :: k in m ==> IsStorable(m[k])
    requires IsEnumeration(order, m)
    ensures LoadLines(map[], ReadAllLines(WriteLines(FormatAll(m, order)))) == m
  {
    var lines := FormatAll(m, order);
    forall i | 0 <= i < |lines| ensures IsSingleLine(lines[i]) {
      FormatAllAt(m, order, i);
      FormatLineSingle(m[order[i]]);
    }
    ReadWriteLines(lines);
    LoadFormatted(map[], m, order);
    assert map[] + Restrict(m, order) == m;
  }

  /** Line `i` of the saved lines is the formatted entry under `order[i]`. */
  lemma {:induction false} FormatAllAt(m: map<string, Profile>, order: seq<string>, i: int)
    requires forall j :: 0 <= j < |order| ==> order[j] in m
    requires 0 <= i < |order|
    ensures FormatAll(m, order)[i] == FormatLine(m[order[i]])
  {
    if i < |order| - 1 {
      var init := order[..|order| - 1];
      FormatAllAt(m, init, i);
    }
  }
}
