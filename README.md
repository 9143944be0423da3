# InstantMC launcher core, in Dafny

InstantMC is a small WPF launcher for Minecraft that runs a user-chosen client
jar with `java -jar`. It bypasses authentication. This project models the
launcher's window logic from `MainWindow.xaml.cs`:

- the **profile line codec**: a profile is stored as one line
  `Username|ServerIP|ServerPort`. When the file is read back, a line becomes a
  profile only if splitting it on `|` gives exactly three parts;
- the **profile table**: a dictionary from user name to profile. Saving a
  profile refuses a blank user name and otherwise adds or replaces one entry.
  Loading applies the lines of `profiles.txt` in order. Choosing an entry in
  the drop-down copies its fields into the text boxes;
- the **config file** rule: the first line of `config.txt`, if there is one,
  becomes the jar path;
- the **launch button**: it checks that the jar exists and then that the user
  name is not blank. Only then does it render the argument string for `java`,
  with placeholder offline credentials and an optional server part whose port
  defaults to 25565.

Layout, one module per file:

- `wrappers.dfy` (`Wrappers`): `Option` and `Result`.
- `text.dfy` (`Text`): `char.IsWhiteSpace` (its documented .NET set, written
  out), `string.IsNullOrWhiteSpace` as `IsBlank`, and `string.Split(char)`
  with `Join` as its inverse.
- `line_file.dfy` (`LineFile`): what `StreamWriter.WriteLine` writes, with
  the Windows line end, and how `File.ReadAllLines` reads text back.
- `profiles.dfy` (`Profiles`): `Profile`, the line codec, the table update of
  one loaded line or one saved profile, and the load/save round trip.
- `launch.dfy` (`Launch`): the launch checks and the argument string. It also
  has a command-line tokenizer that gives the arguments the started `java`
  receives.
- `main_window.dfy` (`LauncherWindow`): the `MainWindow` class. It holds the
  text boxes, the `profiles` map and the two files (`None` when a file does
  not exist). Its handlers are methods proved against the functions above.

Properties proved, among others:

- `ParseLine(FormatLine(p)) == Some(p)` holds exactly when no field of `p`
  holds `|`. Every line that parses is the formatted form of its profile.
- Loading keeps every profile under its own user name. The loaded key set is
  the old keys plus the user names of the valid lines. For a repeated user
  name the last valid line wins, and every other entry is untouched.
- Reading back the profiles file written for a table gives the same table,
  whatever order the dictionary enumerates its entries in. This holds when no
  field holds `|` or a line break.
- A missing jar is reported before a blank user name.
- On success, the arguments `java` receives are exactly `-jar`, the jar path
  (one argument even when it holds spaces), the user name, the fixed flags,
  and `--server`/`--port` when a server is given. This holds when the user
  name, server and port are plain words (no space, tab or `"`), and the jar
  path holds no `"` and does not end in `\`.
- A config file of several lines gives the jar box its first line, whichever
  line end closes it.

## Model

| member | source | states |
|---|---|---|
| `Text.IsBlank` | MainWindow.xaml.cs:71 | `string.IsNullOrWhiteSpace` on a text box: the empty string and every string of `char.IsWhiteSpace` characters; the same test guards :146, :155 and :157 |
| `Text.Split` | MainWindow.xaml.cs:117 | `line.Split('|')` gives one more part than there are separators, and no part holds a separator |
| `Text.JoinSplit` | MainWindow.xaml.cs:117 | joining the parts of a split with the separator gives back the line |
| `Text.SplitJoin` | MainWindow.xaml.cs:117-133 | splitting the join of separator-free fields gives back exactly those fields |
| `LineFile.ReadAllLines` | MainWindow.xaml.cs:115 | no line that `File.ReadAllLines` returns holds a line break |
| `LineFile.WriteLinesSnoc` | MainWindow.xaml.cs:129-134 | each `writer.WriteLine` appends the line and the Windows line end to the file text |
| `LineFile.FirstLineRead` | MainWindow.xaml.cs:56-59 | the first line `File.ReadAllLines` returns is the text up to its first `\r\n`, `\n` or `\r` |
| `LineFile.ReadWriteLines` | MainWindow.xaml.cs:111-136 | reading back what was written line by line gives the same lines, when no line holds a line break |
| `LineFile.ReadSingleLine` | MainWindow.xaml.cs:52-67 | a non-empty single-line text, as `WriteAllText` leaves it, reads back as exactly that line |
| `Profiles.FormatLine` | MainWindow.xaml.cs:133 | the profile line holds two separators more than the three fields together |
| `Profiles.FormatLineIsJoin` | MainWindow.xaml.cs:133 | the profile line is `Username`, `ServerIP`, `ServerPort` joined by `|` |
| `Profiles.ParseLine` | MainWindow.xaml.cs:117-120 | a line is a profile exactly when it holds two separators (three parts), and then it is that profile's formatted line |
| `Profiles.ParseFormatLine` | MainWindow.xaml.cs:117-133 | parsing a formatted profile gives it back exactly when no field holds `|` |
| `Profiles.LoadLine` | MainWindow.xaml.cs:117-121 | a line without exactly three parts leaves the table unchanged; the keys gain only the parsed user name; the key invariant is kept |
| `Profiles.LoadLines` | MainWindow.xaml.cs:115-121 | the `foreach` over the file's lines: each line applied in order with `LoadLine`; its results are stated by the four `LoadLines…` lemmas below |
| `Profiles.LoadLinesKeysMatch` | MainWindow.xaml.cs:115-121 | loading any lines keeps every profile filed under its own user name |
| `Profiles.LoadLinesKeys` | MainWindow.xaml.cs:115-121 | after loading, the keys are the old keys plus the first fields of the valid lines |
| `Profiles.LoadLinesLastWins` | MainWindow.xaml.cs:115-121 | for a user name defined by several valid lines, the last one's profile is in the table |
| `Profiles.LoadLinesUntouched` | MainWindow.xaml.cs:115-121 | an entry that no valid line defines keeps its value, and an absent key stays absent |
| `Profiles.SaveEntry` | MainWindow.xaml.cs:71-83 | a blank user name leaves the table unchanged; otherwise exactly the entry under that name is added or replaced, the others kept, and the key invariant holds |
| `Profiles.SaveSelected` | MainWindow.xaml.cs:77-99 | saving the fields that selecting an entry copied out leaves the table unchanged |
| `Profiles.FormatAll` | MainWindow.xaml.cs:131-134 | the `foreach` over the dictionary's values: one line per key of the enumeration order |
| `Profiles.FormatAllAt` | MainWindow.xaml.cs:131-134 | line `i` of the saved lines is the formatted entry under the `i`-th key of the enumeration order |
| `Profiles.LoadFormatted` | MainWindow.xaml.cs:111-136 | loading the lines saved for some keys of a table puts exactly those entries over the current table |
| `Profiles.SaveLoadRoundTrip` | MainWindow.xaml.cs:111-136 | reading back the profiles file written for a table, in any enumeration order, gives the same table, when no field holds `|` or a line break |
| `Launch.ServerArgs` | MainWindow.xaml.cs:154-159 | the server part is empty exactly when the server box is blank; otherwise ` --server <ip> --port <port>`, with 25565 for a blank port |
| `Launch.LaunchArguments` | MainWindow.xaml.cs:164 | the argument string of the template; `Launch.ArgumentsShape` states its structure |
| `Launch.ArgumentsShape` | MainWindow.xaml.cs:154-164 | the argument string is `-jar`, a space, the jar path in double quotes, then the user name, the fixed offline flags and the server part, each word after one space |
| `Launch.LaunchCommand` | MainWindow.xaml.cs:140-164 | a missing jar fails with JarNotFound before the user name is checked; a blank user name then fails with UsernameMissing; only otherwise is there a command, and it runs `java` |
| `Launch.LaunchReceivesIntendedArgs` | MainWindow.xaml.cs:154-164 | `java` receives `-jar`, the jar path as one argument, `--username` and the name, the fixed offline flags, and `--server <ip> --port <port or 25565>` exactly when a server is given |
| `LauncherWindow.ConfigJarPath` | MainWindow.xaml.cs:52-62 | without a config file the jar box keeps its text; otherwise it gets the file's first line, if there is one |
| `LauncherWindow.ConfigRoundTrip` | MainWindow.xaml.cs:52-67 | saving a single-line jar path and loading the config gives the path back (an empty path leaves the box unchanged) |
| `LauncherWindow.ConfigFirstLine` | MainWindow.xaml.cs:56-59 | for a config file of several lines, the jar box gets the first line, whatever line end closes it |
| `LauncherWindow.LoadedProfiles` | MainWindow.xaml.cs:111-125 | without a profiles file the table is unchanged; loading never removes a key |
| `LauncherWindow.MainWindow.constructor` | MainWindow.xaml.cs:16-22 | a new window has empty boxes, the jar path from the config file and the table loaded from the profiles file |
| `LauncherWindow.MainWindow.LoadConfig` | MainWindow.xaml.cs:52-62 | the jar box becomes `ConfigJarPath` of the config file |
| `LauncherWindow.MainWindow.SaveConfig` | MainWindow.xaml.cs:64-67 | the config file becomes the jar box's text |
| `LauncherWindow.MainWindow.SaveProfile` | MainWindow.xaml.cs:69-89 | the table becomes `SaveEntry` of the boxes; when the save is accepted the profiles file is rewritten from the new table in some enumeration order; otherwise the file is untouched |
| `LauncherWindow.MainWindow.SelectProfile` | MainWindow.xaml.cs:91-100 | an entry in the table is copied into the three boxes, and anything else changes nothing |
| `LauncherWindow.MainWindow.LoadProfiles` | MainWindow.xaml.cs:111-125 | the loop applies the file's lines in order (`LoadedProfiles`) and keeps the key invariant |
| `LauncherWindow.MainWindow.SaveProfiles` | MainWindow.xaml.cs:127-136 | the file gets one formatted line per entry, each entry exactly once, in an unspecified order |
| `LauncherWindow.MainWindow.Launch` | MainWindow.xaml.cs:138-170 | the result is `LaunchCommand` of the boxes; the jar path is saved only on success |
| `LauncherWindow.ReopenAfterSave` | MainWindow.xaml.cs:16-136 | after saving a profile, a window opened on the files left behind holds the same table |

## Left out

- The WPF user interface is not modelled: the EULA message box, the message
  boxes, `OpenFileDialog` with `BrowseBtn_Click`, and the drop-down refresh
  (`UpdateProfileDropdown`, `ProfileDropdown.Text`). Refusals are results
  instead (`saved == false`, `LaunchError`). The selected drop-down item is an
  `Option<string>` parameter.
- `File.Exists` for the jar is a boolean parameter. The two files are fields
  holding their text, `None` when missing. Write failures and other I/O
  exceptions are not modelled.
- `Process.Start` and its `catch` are not modelled: the model stops at the
  program name and the argument string. The runtime not starting is outside
  the model.
- `Launch.LaunchReceivesIntendedArgs`: the tokenizer takes backslashes
  literally and skips the Windows rules for backslashes before a quote.
  Because of that, the lemma requires a jar path with no `"` that does not end
  in `\`, where those rules change nothing. It also requires the user name,
  server and port to be plain words. The launcher does not quote them, so a
  user name with a space reaches `java` as several arguments.
- `Profiles.SaveLoadRoundTrip` requires storable profiles. The save button
  accepts a field holding `|` or a line break, and such a profile does not
  survive a restart (`Profiles.ParseFormatLine` shows the `|` case). A line
  break is worse: the text after it can load as a different profile. For
  example, `Profile("a\nb", "c", "d")` is saved as `a\nb|c|d`, which reads
  back as the lines `a` (skipped) and `b|c|d`, giving a profile `b`.
- The text encoding is not modelled. Because of that, the model also misses
  one more loss on reload: `File.ReadAllLines` takes a U+FEFF at the very
  start of the file for a byte order mark and drops it, so a first saved
  user name starting with U+FEFF loses that character.
- A text box's `Text` is never null in WPF, so the null case of
  `IsNullOrWhiteSpace` is not modelled.
- `App.xaml.cs` (the timed splash sequence) and `SplashWindow.xaml.cs` (a
  label setter) are presentation only.
