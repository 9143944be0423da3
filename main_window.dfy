/** The launcher window's state and its event handlers: the profile table,
    the four text boxes, and the two files it keeps (profiles.txt and
    config.txt, `None` when the file does not exist). */
module LauncherWindow {
  import opened Wrappers
  import opened Text
  import opened LineFile
  import opened Profiles
  import opened Launch

  /** The jar path `LoadConfig` leaves in the jar box: the first line of the
      config file when there is one, otherwise what the box held. */
  function ConfigJarPath(config: Option<string>, current: string): (jarPath: string)
    ensures config.None? ==> jarPath == current
    ensures jarPath == current || IsSingleLine(jarPath)
  {
    match config
    case None => current
    case Some(text) =>
      var lines := ReadAllLines(text);
      if |lines| > 0 then lines[0] else current
  }

  /** Saving a jar path and loading the config again gives the path back when
      it is one non-empty line; an empty path leaves the box as it was. */
  lemma ConfigRoundTrip(jarPath: string, current: string)
    requires IsSingleLine(jarPath)
    ensures ConfigJarPath(Some(jarPath), current) == if jarPath == "" then current else jarPath
  {
    if jarPath != "" {
      ReadSingleLine(jarPath);
    }
  }

  /** For a config file of several lines, the jar box gets the first one,
      whichever line end ("\r\n", "\n" or "\r") closes it. */
  lemma ConfigFirstLine(line: string, c: char, rest: string, current: string)
    requires IsSingleLine(line) && IsLineBreak(c)
    ensures ConfigJarPath(Some(line + [c] + rest), current) == line
  {
    FirstLineRead(line, c, rest);
  }

  /** The profile table after `LoadProfiles`: the lines of the file applied in
      order, or the table unchanged when the file does not exist. */
  function LoadedProfiles(m: map<string, Profile>, file: Option<string>): (r: map<string, Profile>)
    ensures file.None? ==> r == m
    ensures m.Keys <= r.Keys
  {
    match file
    case None => m
    case Some(text) =>
      LoadLinesKeys(m, ReadAllLines(text));
      LoadLines(m, ReadAllLines(text))
  }

  class MainWindow {
    // the text boxes
    var jarPathText: string
    var usernameText: string
    var serverIPText: string
    var serverPortText: string
    // the profile dictionary, keyed by user name
    var profiles: map<string, Profile>
    // the files on disk
    var profilesFile: Option<string>
    var configFile: Option<string>

    ghost predicate Valid()
      reads this
    {
      KeysMatch(profiles)
    }

    /** Opening the window: empty boxes, then the config and the profiles are
        loaded from whatever files are on disk. */
    constructor (profilesOnDisk: Option<string>, configOnDisk: Option<string>)
      ensures Valid()
      ensures profilesFile == profilesOnDisk && configFile == configOnDisk
      ensures usernameText == "" && serverIPText == "" && serverPortText == ""
      ensures jarPathText == ConfigJarPath(configOnDisk, "")
      ensures profiles == LoadedProfiles(map[], profilesOnDisk)
    {
      jarPathText, usernameText, serverIPText, serverPortText := "", "", "", "";
      profiles := map[];
      profilesFile, configFile := profilesOnDisk, configOnDisk;
      new;
      LoadConfig();
      LoadProfiles();
    }

    /** `LoadConfig`: the first line of config.txt, if any, goes to the jar box. */
    method LoadConfig()
      modifies this`jarPathText
      ensures jarPathText == ConfigJarPath(configFile, old(jarPathText))
    {
      if configFile.Some? {
        var lines := ReadAllLines(configFile.value);
        if |lines| > 0 {
          jarPathText := lines[0];
        }
      }
    }

    /** `SaveConfig`: config.txt becomes the jar box's text. */
    method SaveConfig()
      modifies this`configFile
      ensures configFile == Some(jarPathText)
    {
      configFile := Some(jarPathText);
    }

    /** The save-profile button: a blank user name is refused; otherwise the
        entry under that name is added or replaced and the profiles file is
        rewritten. */
    method SaveProfile() returns (saved: bool, ghost order: seq<string>)
      requires Valid()
      modifies this`profiles, this`profilesFile
      ensures Valid()
      ensures saved <==> !IsBlank(usernameText)
      ensures profiles == SaveEntry(old(profiles), usernameText, serverIPText, serverPortText)
      ensures saved ==> IsEnumeration(order, profiles) && profilesFile == Some(WriteLines(FormatAll(profiles, order)))
      ensures !saved ==> profilesFile == old(profilesFile)
    {
      if IsBlank(usernameText) {
        // "Enter a username!"
        return false, [];
      }
      var profileName := usernameText;
      profiles := profiles[profileName := Profile(usernameText, serverIPText, serverPortText)];
      order := SaveProfiles();
      saved := true;
    }

    /** The profile drop-down: choosing an entry that is in the table copies
        its fields into the boxes; anything else changes nothing. */
    method SelectProfile(selected: Option<string>)
      requires Valid()
      modifies this`usernameText, this`serverIPText, this`serverPortText
      ensures selected.Some? && selected.value in profiles ==>
                && usernameText == selected.value
                && serverIPText == profiles[selected.value].serverIP
                && serverPortText == profiles[selected.value].serverPort
      ensures !(selected.Some? && selected.value in profiles) ==>
                && usernameText == old(usernameText)
                && serverIPText == old(serverIPText)
                && serverPortText == old(serverPortText)
    {
      if selected.Some? && selected.value in profiles {
        var profile := profiles[selected.value];
        usernameText := profile.username;
        serverIPText := profile.serverIP;
        serverPortText := profile.serverPort;
      }
    }

    /** `LoadProfiles`: every line of profiles.txt that splits into exactly
        three parts replaces the entry under its first part. */
    method LoadProfiles()
      requires Valid()
      modifies this`profiles
      ensures Valid()
      ensures profiles == LoadedProfiles(old(profiles), profilesFile)
    {
      if profilesFile.Some? {
        var lines := ReadAllLines(profilesFile.value);
        ghost var start := profiles;
        for i := 0 to |lines|
          invariant profiles == LoadLines(start, lines[..i])
        {
          var parts := Split(lines[i], Separator);
          if |parts| == 3 {
            profiles := profiles[parts[0] := Profile(parts[0], parts[1], parts[2])];
          }
          assert lines[..i + 1][..i] == lines[..i];
        }
        assert lines[..|lines|] == lines;
        LoadLinesKeysMatch(start, lines);
      }
    }

    /** `SaveProfiles`: one line per entry, in the dictionary's enumeration
        order (which .NET leaves unspecified, hence the arbitrary choice). */
    method SaveProfiles() returns (ghost order: seq<string>)
      modifies this`profilesFile
      ensures IsEnumeration(order, profiles)
      ensures profilesFile == Some(WriteLines(FormatAll(profiles, order)))
    {
      var text := "";
      var remaining := profiles.Keys;
      order := [];
      while remaining != {}
        invariant remaining <= profiles.Keys
        invariant forall i :: 0 <= i < |order| ==> order[i] in profiles && order[i] !in remaining
        invariant forall k :: k in profiles ==> k in remaining || k in order
        invariant forall i, j :: 0 <= i < j < |order| ==> order[i] != order[j]
        invariant text == WriteLines(FormatAll(profiles, order))
        decreases remaining
      {
        var k :| k in remaining;
        var line := FormatLine(profiles[k]);
        WriteLinesSnoc(FormatAll(profiles, order), line);
        text := text + line + NewLine;
        assert (order + [k])[..|order|] == order;
        order := order + [k];
        remaining := remaining - {k};
      }
      profilesFile := Some(text);
    }

    /** The launch button, given whether the jar file exists: on success the
        jar path is saved for next time and the command for `Process.Start`
        is returned; on failure nothing changes. */
    method Launch(jarExists: bool) returns (r: Result<Invocation, LaunchError>)
      modifies this`configFile
      ensures r == LaunchCommand(jarExists, jarPathText, usernameText, serverIPText, serverPortText)
      ensures configFile == if r.Success? then Some(jarPathText) else old(configFile)
    {
      r := LaunchCommand(jarExists, jarPathText, usernameText, serverIPText, serverPortText);
      if r.Success? {
        SaveConfig();
      }
    }
  }

  /** Saving a profile and opening the window again, on the files the save
      left, gives back the same table, when every profile is storable. */
  method ReopenAfterSave(window: MainWindow) returns (reopened: MainWindow)
    requires window.Valid()
    requires forall k :: k in window.profiles ==> IsStorable(window.profiles[k])
    requires IsStorable(Profile(window.usernameText, window.serverIPText, window.serverPortText))
    requires !IsBlank(window.usernameText)
    modifies window
    ensures reopened.profiles == window.profiles
  {
    var saved, order := window.SaveProfile();
    SaveLoadRoundTrip(window.profiles, order);
    reopened := new MainWindow(window.profilesFile, window.configFile);
  }
}
