/** The launch button: the checks it makes, in order, and the command line it
    hands to `Process.Start`. A command-line tokenizer gives the arguments the
    started runtime receives, and a lemma shows they are the intended ones. */
module Launch {
  import opened Wrappers
  import opened Text

  datatype LaunchError =
    | JarNotFound       // the jar path does not name an existing file
    | UsernameMissing   // the user name is blank

  /** What `Process.Start(program, arguments)` is asked to run. */
  datatype Invocation = Invocation(program: string, arguments: string)

  const Runtime: string := "java"
  const DefaultPort: string := "25565"

  /** The server part of the command line: nothing without a server address,
      otherwise the address and the port, 25565 when the port box is blank. */
  function ServerArgs(serverIP: string, serverPort: string): (args: string)
    ensures args == "" <==> IsBlank(serverIP)
  {
    if IsBlank(serverIP) then ""
    else " --server " + serverIP + " --port " + (if IsBlank(serverPort) then DefaultPort else serverPort)
  }

  /** The argument string: the chosen jar, the user name, fixed placeholder
      credentials for offline play, then the server part. */
  function LaunchArguments(jarPath: string, username: string, serverIP: string, serverPort: string): string
  {
    "-jar \"" + jarPath + "\" --username " + username
      + " --version InstantMC" + " --accessToken 0" + " --userType legacy" + " --online-mode false"
      + ServerArgs(serverIP, serverPort)
  }

  /** The launch button, given whether the jar exists: a missing jar is
      reported before a blank user name, and only when both checks pass is
      there a command to run. */
  function LaunchCommand(jarExists: bool, jarPath: string, username: string, serverIP: string, serverPort: string)
    : (r: Result<Invocation, LaunchError>)
    ensures !jarExists ==> r == Failure(JarNotFound)
    ensures jarExists && IsBlank(username) ==> r == Failure(UsernameMissing)
    ensures r.Success? <==> jarExists && !IsBlank(username)
    ensures r.Success? ==> r.value.program == Runtime
  {
    if !jarExists then Failure(JarNotFound)
    else if IsBlank(username) then Failure(UsernameMissing)
    else Success(Invocation(Runtime, LaunchArguments(jarPath, username, serverIP, serverPort)))
  }

  // ---------------------------------------------------------------------
  // How the started program cuts its command line into arguments: spaces and
  // tabs separate arguments except between double quotes, and the quotes
  // themselves are dropped. (Backslashes are taken literally; the Windows rules
  // treat them specially only right before a double quote.)

  predicate IsArgDelimiter(c: char)
  {
    c == ' ' || c == '\t'
  }

  /** An argument that needs no quoting. */
  predicate IsPlainWord(w: string)
  {
    w != [] && forall i :: 0 <= i < |w| ==> !IsArgDelimiter(w[i]) && w[i] != '"'
  }

  /** Scan `s` with the argument `current` under way (`started`), inside
      double quotes or not. */
  function Scan(s: string, current: string, quoted: bool, started: bool): seq<string>
    decreases |s|
  {
    if s == [] then (if started then [current] else [])
    else if s[0] == '"' then Scan(s[1..], current, !quoted, true)
    else if IsArgDelimiter(s[0]) && !quoted then
      (if started then [current] else []) + Scan(s[1..], "", false, false)
    else Scan(s[1..], current + [s[0]], quoted, true)
  }

  function CommandLineArgs(s: string): seq<string>
  {
    Scan(s, "", false, false)
  }

  /** The arguments the runtime is meant to receive. */
  function IntendedArgs(jarPath: string, username: string, serverIP: string, serverPort: string): seq<string>
  {
    ["-jar", jarPath, "--username", username, "--version", "InstantMC", "--accessToken", "0",
     "--userType", "legacy", "--online-mode", "false"]
      + IntendedServerArgs(serverIP, serverPort)
  }

  function IntendedServerArgs(serverIP: string, serverPort: string): seq<string>
  {
    if IsBlank(serverIP) then []
    else ["--server", serverIP, "--port", if IsBlank(serverPort) then DefaultPort else serverPort]
  }

  /** Each word preceded by one space. */
  function Spaced(words: seq<string>): string
  {
    if words == [] then "" else [' '] + words[0] + Spaced(words[1..])
  }

  lemma {:induction false} SpacedAppend(a: seq<string>, b: seq<string>)
    ensures Spaced(a + b) == Spaced(a) + Spaced(b)
  {
    if a == [] {
      assert a + b == b;
    } else {
      assert (a + b)[1..] == a[1..] + b;
      SpacedAppend(a[1..], b);
    }
  }

  lemma {:induction false} ScanPlain(w: string, r: string, current: string, started: bool)
    requires forall i :: 0 <= i < |w| ==> !IsArgDelimiter(w[i]) && w[i] != '"'
    ensures Scan(w + r, current, false, started) == Scan(r, current + w, false, started || w != [])
  {
    if w == [] {
      assert w + r == r && current + w == current;
    } else {
      assert (w + r)[0] == w[0] && (w + r)[1..] == w[1..] + r;
      ScanPlain(w[1..], r, current + [w[0]], true);
      assert current + [w[0]] + w[1..] == current + w;
    }
  }

  lemma {:induction false} ScanQuoted(w: string, r: string, current: string)
    requires '"' !in w
    ensures Scan(w + r, current, true, true) == Scan(r, current + w, true, true)
  {
    if w == [] {
      assert w + r == r && current + w == current;
    } else {
      assert (w + r)[0] == w[0] && (w + r)[1..] == w[1..] + r;
      ScanQuoted(w[1..], r, current + [w[0]]);
      assert current + [w[0]] + w[1..] == current + w;
    }
  }

  /** A space ends the argument under way; a plain word after it is under
      way next. */
  lemma ScanNextWord(current: string, w: string, r: string)
    requires IsPlainWord(w)
    ensures Scan([' '] + (w + r), current, false, true) == [current] + Scan(r, w, false, true)
  {
    var s := [' '] + (w + r);
    assert s[0] == ' ' && s[1..] == w + r;
    ScanPlain(w, r, "", false);
    assert "" + w == w;
  }

  /** A run of space-preceded plain words ends the argument under way and
      yields every word but the last, which is left under way. */
  lemma {:induction false} ScanSpaced(words: seq<string>, r: string, current: string)
    requires forall i :: 0 <= i < |words| ==> IsPlainWord(words[i])
    ensures Scan(Spaced(words) + r, current, false, true)
         == ([current] + words)[..|words|] + Scan(r, ([current] + words)[|words|], false, true)
  {
    if words == [] {
      assert Spaced(words) + r == r;
    } else {
      var w := words[0];
      var tail := Spaced(words[1..]) + r;
      assert Spaced(words) + r == [' '] + (w + tail);
      ScanNextWord(current, w, tail);
      ScanSpaced(words[1..], r, w);
      assert [w] + words[1..] == words;
      assert ([current] + words)[..|words|] == [current] + ([w] + words[1..])[..|words[1..]|];
    }
  }

  lemma SpacedPair(a: string, b: string)
    ensures Spaced([a, b]) == [' '] + a + [' '] + b
  {
    assert [a, b][1..] == [b] && [b][1..] == [];
    assert Spaced([b]) == [' '] + b + "";
    assert [' '] + b + "" == [' '] + b;
  }

  /** The fixed flags of the template, each as a pair of words. */
  lemma FixedPairs()
    ensures Spaced(["--version", "InstantMC"]) == " --version InstantMC"
    ensures Spaced(["--accessToken", "0"]) == " --accessToken 0"
    ensures Spaced(["--userType", "legacy"]) == " --userType legacy"
    ensures Spaced(["--online-mode", "false"]) == " --online-mode false"
  {
    SpacedPair("--version", "InstantMC");
    SpacedPair("--accessToken", "0");
    SpacedPair("--userType", "legacy");
    SpacedPair("--online-mode", "false");
  }

  /** The server part of the template, as a run of words. */
  lemma ServerWords(serverIP: string, serverPort: string)
    ensures Spaced(IntendedServerArgs(serverIP, serverPort)) == ServerArgs(serverIP, serverPort)
  {
    if !IsBlank(serverIP) {
      var port := if IsBlank(serverPort) then DefaultPort else serverPort;
      SpacedPair("--server", serverIP);
      SpacedPair("--port", port);
      SpacedAppend(["--server", serverIP], ["--port", port]);
      assert ["--server", serverIP] + ["--port", port] == IntendedServerArgs(serverIP, serverPort);
      assert " --server " == [' '] + "--server" + [' '];
      assert " --port " == [' '] + "--port" + [' '];
    }
  }

  /** The words after the jar path, as they appear in the argument string. */
  lemma WordsAfterJar(username: string, serverIP: string, serverPort: string, words: seq<string>)
    requires words == ["--username", username, "--version", "InstantMC", "--accessToken", "0",
                       "--userType", "legacy", "--online-mode", "false"] + IntendedServerArgs(serverIP, serverPort)
    ensures Spaced(words)
         == " --username " + username + (" --version InstantMC" + (" --accessToken 0"
              + (" --userType legacy" + (" --online-mode false" + ServerArgs(serverIP, serverPort)))))
  {
    var version := ["--version", "InstantMC"];
    var token := ["--accessToken", "0"];
    var userType := ["--userType", "legacy"];
    var online := ["--online-mode", "false"];
    var server := IntendedServerArgs(serverIP, serverPort);
    FixedPairs();
    ServerWords(serverIP, serverPort);
    SpacedPair("--username", username);
    assert " --username " == [' '] + "--username" + [' '];
    assert words == ["--username", username] + (version + (token + (userType + (online + server))));
    SpacedAppend(online, server);
    SpacedAppend(userType, online + server);
    SpacedAppend(token, userType + (online + server));
    SpacedAppend(version, token + (userType + (online + server)));
    SpacedAppend(["--username", username], version + (token + (userType + (online + server))));
  }

  lemma Reassociate(a: string, b: string, c: string, d: string, e: string, f: string, g: string, h: string)
    ensures a + b + c + d + e + f + g + h == a + b + c + (d + (e + (f + (g + h))))
  {
  }

  /** The argument string is the quoted jar followed by the other words. */
  lemma ArgumentsShape(jarPath: string, username: string, serverIP: string, serverPort: string)
    ensures LaunchArguments(jarPath, username, serverIP, serverPort)
         == "-jar" + [' '] + ("\"" + jarPath + "\"" + Spaced(IntendedArgs(jarPath, username, serverIP, serverPort)[2..]))
  {
    var words := IntendedArgs(jarPath, username, serverIP, serverPort)[2..];
    WordsAfterJar(username, serverIP, serverPort, words);
    var rest := " --version InstantMC" + (" --accessToken 0"
              + (" --userType legacy" + (" --online-mode false" + ServerArgs(serverIP, serverPort))));
    Reassociate("-jar \"" + jarPath, "\" --username ", username, " --version InstantMC", " --accessToken 0",
                " --userType legacy", " --online-mode false", ServerArgs(serverIP, serverPort));
    assert LaunchArguments(jarPath, username, serverIP, serverPort)
        == "-jar \"" + jarPath + "\" --username " + username + rest;
    var opening, quote, flag := "-jar" + [' '], "\"", " --username ";
    assert "-jar \"" == opening + quote;
    assert "\" --username " == quote + flag;
    Regroup(opening, quote, jarPath, flag, username, rest);
  }

  lemma Regroup(x: string, q: string, j: string, f: string, u: string, r: string)
    ensures x + q + j + (q + f) + u + r == x + (q + j + q + (f + u + r))
  {
  }

  lemma IntendedServerArgsPlain(serverIP: string, serverPort: string)
    requires !IsBlank(serverIP) ==> IsPlainWord(serverIP) && (IsBlank(serverPort) || IsPlainWord(serverPort))
    ensures forall i :: 0 <= i < |IntendedServerArgs(serverIP, serverPort)| ==> IsPlainWord(IntendedServerArgs(serverIP, serverPort)[i])
  {
  }

  /** The runtime receives exactly the intended arguments, the jar path as one
      argument even when it holds spaces, provided the path holds no double
      quote and does not end in a backslash, and the user name, server and
      port are plain words. */
  lemma LaunchReceivesIntendedArgs(jarPath: string, username: string, serverIP: string, serverPort: string)
    requires '"' !in jarPath && (jarPath == [] || jarPath[|jarPath| - 1] != '\\')
    requires !IsBlank(username) && IsPlainWord(username)
    requires !IsBlank(serverIP) ==> IsPlainWord(serverIP) && (IsBlank(serverPort) || IsPlainWord(serverPort))
    ensures LaunchCommand(true, jarPath, username, serverIP, serverPort)
         == Success(Invocation(Runtime, LaunchArguments(jarPath, username, serverIP, serverPort)))
    ensures CommandLineArgs(LaunchArguments(jarPath, username, serverIP, serverPort))
         == IntendedArgs(jarPath, username, serverIP, serverPort)
  {
    var all := IntendedArgs(jarPath, username, serverIP, serverPort);
    var words := all[2..];
    ArgumentsShape(jarPath, username, serverIP, serverPort);
    WordsAfterJarPlain(username, serverIP, serverPort, words);
    ScanCommandLine(jarPath, words);
    assert all == ["-jar", jarPath] + words;
    var line := LaunchArguments(jarPath, username, serverIP, serverPort);
    assert CommandLineArgs(line) == Scan(line, "", false, false);
  }

  /** A command line of the launcher's shape: `-jar`, the quoted jar path,
      then plain words. */
  lemma ScanCommandLine(jarPath: string, words: seq<string>)
    requires '"' !in jarPath
    requires forall i :: 0 <= i < |words| ==> IsPlainWord(words[i])
    ensures Scan("-jar" + [' '] + ("\"" + jarPath + "\"" + Spaced(words)), "", false, false) == ["-jar", jarPath] + words
  {
    var rest := Spaced(words);
    ScanJarOption(jarPath, rest);
    ScanSpacedToEnd(words, jarPath);
    assert ["-jar"] + ([jarPath] + words) == ["-jar", jarPath] + words;
  }

  /** Plain words to the end of the command line: the argument under way,
      then every word. */
  lemma ScanSpacedToEnd(words: seq<string>, current: string)
    requires forall i :: 0 <= i < |words| ==> IsPlainWord(words[i])
    ensures Scan(Spaced(words), current, false, true) == [current] + words
  {
    ScanSpaced(words, "", current);
    assert Spaced(words) + "" == Spaced(words);
    assert ([current] + words)[..|words|] + [([current] + words)[|words|]] == [current] + words;
  }

  lemma WordsAfterJarPlain(username: string, serverIP: string, serverPort: string, words: seq<string>)
    requires IsPlainWord(username)
    requires !IsBlank(serverIP) ==> IsPlainWord(serverIP) && (IsBlank(serverPort) || IsPlainWord(serverPort))
    requires words == ["--username", username, "--version", "InstantMC", "--accessToken", "0",
                       "--userType", "legacy", "--online-mode", "false"] + IntendedServerArgs(serverIP, serverPort)
    ensures forall i :: 0 <= i < |words| ==> IsPlainWord(words[i])
  {
    IntendedServerArgsPlain(serverIP, serverPort);
  }

  /** `-jar` and the quoted jar path: the quotes keep the path one argument,
      which is left under way. */
  lemma ScanJarOption(jarPath: string, rest: string)
    requires '"' !in jarPath
    ensures Scan("-jar" + [' '] + ("\"" + jarPath + "\"" + rest), "", false, false)
         == ["-jar"] + Scan(rest, jarPath, false, true)
  {
    var tail := "\"" + jarPath + "\"" + rest;
    assert "-jar" + [' '] + tail == "-jar" + ([' '] + tail);
    ScanPlain("-jar", [' '] + tail, "", false);
    assert "" + "-jar" == "-jar";
    // the space after -jar ends it
    assert ([' '] + tail)[0] == ' ' && ([' '] + tail)[1..] == tail;
    assert Scan([' '] + tail, "-jar", false, true) == ["-jar"] + Scan(tail, "", false, false);
    // the opening quote starts the jar path
    var inner := jarPath + ("\"" + rest);
    assert tail == ['"'] + inner;
    assert Scan(tail, "", false, false) == Scan(inner, "", true, true);
    ScanQuoted(jarPath, "\"" + rest, "");
    assert "" + jarPath == jarPath;
    // the closing quote leaves the jar path under way
    var closing := "\"" + rest;
    assert closing[0] == '"' && closing[1..] == rest;
    assert Scan(closing, jarPath, true, true) == Scan(rest, jarPath, false, true);
  }
}
