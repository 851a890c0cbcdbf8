/**
 The tail of `main` (aider-cli.py): every selected directory entry is
 replaced by what `expand_directory` returns for it, every other entry is
 kept, and the files are handed to aider as `aider --file f1 --file f2 ...`.
 `expand_directory` runs `git` and is a parameter here; an empty final list
 ends the program instead of building a command.
 */
module Command {
  import opened Strings
  import opened Paths
  import opened Collections

  datatype Option<T> = None | Some(value: T)

  /** What one selected line contributes to `final_files`. */
  function Expansion(file: string, expandDirectory: string -> seq<string>): seq<string> {
    if IsDir(file) then expandDirectory(file) else [file]
  }

  /** `final_files` for a whole selection. */
  function Expanded(selected: seq<string>, expandDirectory: string -> seq<string>): seq<string> {
    if selected == [] then []
    else Expansion(selected[0], expandDirectory) + Expanded(selected[1..], expandDirectory)
  }

  lemma ExpandedUnfold(selected: seq<string>, expandDirectory: string -> seq<string>)
    requires selected != []
    ensures Expanded(selected, expandDirectory)
         == Expansion(selected[0], expandDirectory) + Expanded(selected[1..], expandDirectory)
  {
  }

  lemma ExpandedUnfoldAppend(a: seq<string>, b: seq<string>, expandDirectory: string -> seq<string>)
    requires a != []
    ensures Expanded(a + b, expandDirectory)
         == Expansion(a[0], expandDirectory) + Expanded(a[1..] + b, expandDirectory)
  {
    assert (a + b)[0] == a[0];
    assert (a + b)[1..] == a[1..] + b;
    ExpandedUnfold(a + b, expandDirectory);
  }

  /** Each selected line is expanded in place: the expansion of a
      concatenation is the concatenation of the expansions. */
  lemma {:induction false} ExpandedAppend(a: seq<string>, b: seq<string>, expandDirectory: string -> seq<string>)
    ensures Expanded(a + b, expandDirectory) == Expanded(a, expandDirectory) + Expanded(b, expandDirectory)
  {
    if a == [] {
      assert a + b == b;
    } else {
      ExpandedAppend(a[1..], b, expandDirectory);
      ExpandedUnfoldAppend(a, b, expandDirectory);
      ExpandedUnfold(a, expandDirectory);
      ConcatRegroup(Expanded(a + b, expandDirectory),
                    Expansion(a[0], expandDirectory),
                    Expanded(a[1..] + b, expandDirectory),
                    Expanded(a, expandDirectory),
                    Expanded(a[1..], expandDirectory),
                    Expanded(b, expandDirectory));
    }
  }

  /** A selection without directory entries passes through unchanged. */
  lemma {:induction false} ExpandedPlainFiles(selected: seq<string>, expandDirectory: string -> seq<string>)
    requires forall i :: 0 <= i < |selected| ==> !IsDir(selected[i])
    ensures Expanded(selected, expandDirectory) == selected
  {
    if selected != [] {
      ExpandedPlainFiles(selected[1..], expandDirectory);
      assert selected == [selected[0]] + selected[1..];
    }
  }

  /** When `expand_directory` yields plain files (as `git ls-files` does),
      no directory entry is left in `final_files`. */
  lemma {:induction false} ExpandedHasNoDirs(selected: seq<string>, expandDirectory: string -> seq<string>)
    requires forall i :: 0 <= i < |selected| && IsDir(selected[i]) ==>
               forall g :: g in expandDirectory(selected[i]) ==> !IsDir(g)
    ensures forall g :: g in Expanded(selected, expandDirectory) ==> !IsDir(g)
  {
    if selected != [] {
      ExpandedHasNoDirs(selected[1..], expandDirectory);
      assert 0 <= 0 < |selected|;
    }
  }

  /** The first loop of the tail of `main`, filling `final_files`. */
  method ExpandSelection(selected: seq<string>, expandDirectory: string -> seq<string>) returns (finalFiles: seq<string>)
    ensures finalFiles == Expanded(selected, expandDirectory)
  {
    finalFiles := [];
    for i := 0 to |selected|
      invariant finalFiles == Expanded(selected[..i], expandDirectory)
    {
      if IsDir(selected[i]) {
        finalFiles := finalFiles + expandDirectory(selected[i]);
      } else {
        finalFiles := finalFiles + [selected[i]];
      }
      assert selected[..i + 1] == selected[..i] + [selected[i]];
      ExpandedAppend(selected[..i], [selected[i]], expandDirectory);
      assert Expanded([selected[i]], expandDirectory) == Expansion(selected[i], expandDirectory);
    }
    assert selected[..|selected|] == selected;
  }

  /** One `--file f` pair per file, in order. */
  function FileArgs(files: seq<string>): seq<string> {
    if files == [] then [] else ["--file", files[0]] + FileArgs(files[1..])
  }

  /** The aider command line for a list of files. */
  function AiderArgv(files: seq<string>): seq<string> {
    ["aider"] + FileArgs(files)
  }

  lemma {:induction false} FileArgsAppend(files: seq<string>, f: string)
    ensures FileArgs(files + [f]) == FileArgs(files) + ["--file", f]
  {
    if files != [] {
      FileArgsAppend(files[1..], f);
      assert (files + [f])[1..] == files[1..] + [f];
    }
  }

  lemma {:induction false} FileArgsShape(files: seq<string>)
    ensures |FileArgs(files)| == 2 * |files|
    ensures forall i :: 0 <= i < |files| ==>
              FileArgs(files)[2 * i] == "--file" && FileArgs(files)[2 * i + 1] == files[i]
  {
    if files != [] {
      var rest := FileArgs(files[1..]);
      FileArgsShape(files[1..]);
      assert FileArgs(files) == ["--file", files[0]] + rest;
      forall i | 0 <= i < |files|
        ensures FileArgs(files)[2 * i] == "--file" && FileArgs(files)[2 * i + 1] == files[i]
      {
        if i > 0 {
          var k := i - 1;
          assert 2 * i == 2 * k + 2;
          assert FileArgs(files)[2 * i] == rest[2 * k];
          assert FileArgs(files)[2 * i + 1] == rest[2 * k + 1];
          assert files[i] == files[1..][k];
        }
      }
    }
  }

  /** The command is "aider" followed by a "--file" before each file, in
      order: `1 + 2n` words for `n` files. */
  lemma AiderArgvShape(files: seq<string>)
    ensures |AiderArgv(files)| == 1 + 2 * |files|
    ensures AiderArgv(files)[0] == "aider"
    ensures forall i :: 0 <= i < |files| ==>
              AiderArgv(files)[1 + 2 * i] == "--file" && AiderArgv(files)[2 + 2 * i] == files[i]
  {
    FileArgsShape(files);
    forall i | 0 <= i < |files|
      ensures AiderArgv(files)[1 + 2 * i] == "--file" && AiderArgv(files)[2 + 2 * i] == files[i]
    {
      assert AiderArgv(files)[1 + 2 * i] == FileArgs(files)[2 * i];
      assert AiderArgv(files)[2 + 2 * i] == FileArgs(files)[2 * i + 1];
    }
  }

  /** How aider reads its `--file` options back: pairs after the program
      name, nothing else. */
  function ParseFileArgs(args: seq<string>): Option<seq<string>> {
    if args == [] then Some([])
    else if |args| >= 2 && args[0] == "--file" then
      match ParseFileArgs(args[2..])
      case Some(files) => Some([args[1]] + files)
      case None => None
    else None
  }

  function FilesOfArgv(argv: seq<string>): Option<seq<string>> {
    if argv != [] && argv[0] == "aider" then ParseFileArgs(argv[1..]) else None
  }

  /** Reading the command line back yields exactly the final files. */
  lemma {:induction false} ArgvRoundTrip(files: seq<string>)
    ensures FilesOfArgv(AiderArgv(files)) == Some(files)
  {
    if files != [] {
      ArgvRoundTrip(files[1..]);
      assert FileArgs(files)[2..] == FileArgs(files[1..]);
      assert files == [files[0]] + files[1..];
    }
  }

  /** The second loop of the tail of `main`, growing `aider_command`. */
  method BuildAiderCommand(finalFiles: seq<string>) returns (argv: seq<string>)
    ensures argv == AiderArgv(finalFiles)
  {
    argv := ["aider"];
    for i := 0 to |finalFiles|
      invariant argv == AiderArgv(finalFiles[..i])
    {
      argv := argv + ["--file", finalFiles[i]];
      assert finalFiles[..i + 1] == finalFiles[..i] + [finalFiles[i]];
      FileArgsAppend(finalFiles[..i], finalFiles[i]);
    }
    assert finalFiles[..|finalFiles|] == finalFiles;
  }

  /** The tail of `main`: no command when nothing is left to pass to aider
      (the program exits), otherwise the aider command for the expanded
      selection. */
  method AssembleCommand(selected: seq<string>, expandDirectory: string -> seq<string>)
    returns (command: Option<seq<string>>)
    ensures command.None? <==> Expanded(selected, expandDirectory) == []
    ensures command.Some? ==> command.value == AiderArgv(Expanded(selected, expandDirectory))
  {
    var finalFiles := ExpandSelection(selected, expandDirectory);
    if finalFiles == [] {
      command := None;
    } else {
      var argv := BuildAiderCommand(finalFiles);
      command := Some(argv);
    }
  }
}
