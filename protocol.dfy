/**
 * The line protocol between the bridge and its controller: outgoing lines are
 * a command word followed by percent-encoded arguments (`send_cmd`), incoming
 * lines are split on whitespace into a verb and decoded arguments
 * (`parse_input`). The percent-encoding itself is a library call and stays
 * abstract: a `Codec` holds the two functions.
 */
module Protocol {
  import opened Text

  /** `encode` (percent-encoding with the simple encode set) and `decode` (lossy percent-decoding). */
  datatype Codec = Codec(encode: string -> string, decode: string -> string)

  /** The line `send_cmd(cmd, args)` writes: `cmd`, then " " and the encoded argument for each argument in order. */
  function CommandLine(cmd: string, args: seq<string>, encode: string -> string): string
    decreases |args|
  {
    if args == [] then cmd
    else CommandLine(cmd, args[..|args| - 1], encode) + " " + encode(args[|args| - 1])
  }

  /** `send_cmd`: builds the output line argument by argument. */
  method SendCmd(cmd: string, args: seq<string>, encode: string -> string) returns (output: string)
    ensures output == CommandLine(cmd, args, encode)
  {
    output := cmd;
    for i := 0 to |args|
      invariant output == CommandLine(cmd, args[..i], encode)
    {
      assert args[..i + 1][..i] == args[..i];
      output := output + " " + encode(args[i]);
    }
    assert args[..|args|] == args;
  }

  lemma CommandLineOne(cmd: string, a: string, encode: string -> string)
    ensures CommandLine(cmd, [a], encode) == cmd + " " + encode(a)
  {
    assert [a][..0] == [];
  }

  /** `send_ack`. */
  function AckLine(): (line: string)
    ensures line == "OK"
  {
    CommandLine("OK", [], s => s)
  }

  /** `send_done`. */
  function DoneLine(): (line: string)
    ensures line == "DONE"
  {
    CommandLine("DONE", [], s => s)
  }

  /** `send_changes`: the push notification for one replica. */
  function ChangesLine(replica: string, encode: string -> string): (line: string)
    ensures line == "CHANGES " + encode(replica)
  {
    CommandLineOne("CHANGES", replica, encode);
    CommandLine("CHANGES", [replica], encode)
  }

  /** `send_recursive`: one changed path in a drain. */
  function RecursiveLine(path: string, encode: string -> string): (line: string)
    ensures line == "RECURSIVE " + encode(path)
  {
    CommandLineOne("RECURSIVE", path, encode);
    CommandLine("RECURSIVE", [path], encode)
  }

  /** `send_error`: the fatal error report. */
  function ErrorLine(message: string, encode: string -> string): (line: string)
    ensures line == "ERROR " + encode(message)
  {
    CommandLineOne("ERROR", message, encode);
    CommandLine("ERROR", [message], encode)
  }

  /** The announcement written once at start-up. */
  function VersionLine(encode: string -> string): (line: string)
    ensures line == "VERSION " + encode("1")
  {
    CommandLineOne("VERSION", "1", encode);
    CommandLine("VERSION", ["1"], encode)
  }

  /** Each argument passed through `f`, in order. */
  function MapAll(ws: seq<string>, f: string -> string): (r: seq<string>)
    ensures |r| == |ws|
  {
    seq(|ws|, i requires 0 <= i < |ws| => f(ws[i]))
  }

  /** `parse_input`: the first whitespace-separated word verbatim, every later word decoded. */
  function Parse(input: string, decode: string -> string): (string, seq<string>)
  {
    var ws := Words(input);
    if ws == [] then ("", []) else (ws[0], MapAll(ws[1..], decode))
  }

  /** `parse_input`, as the source writes it: one pass over the words. */
  method ParseInput(input: string, decode: string -> string) returns (cmd: string, args: seq<string>)
    ensures (cmd, args) == Parse(input, decode)
  {
    cmd := "";
    args := [];
    var words := Words(input);
    for idx := 0 to |words|
      invariant idx == 0 ==> cmd == "" && args == []
      invariant idx > 0 ==> cmd == words[0] && args == MapAll(words[1..idx], decode)
    {
      if idx == 0 {
        cmd := words[idx];
      } else {
        args := args + [decode(words[idx])];
      }
    }
    if words != [] {
      assert words[1..|words|] == words[1..];
    }
  }

  /** The verb of a parsed line is empty exactly when the line is blank, and is otherwise one whitespace-free word. */
  lemma ParseVerb(input: string, decode: string -> string)
    ensures Parse(input, decode).0 == "" <==> AllSeparators(input, IsSpace)
    ensures Parse(input, decode).0 != "" ==> IsToken(Parse(input, decode).0, IsSpace)
    ensures AllSeparators(input, IsSpace) ==> Parse(input, decode) == ("", [])
  {
    NoTokensIffSeparators(input, IsSpace);
  }

  /** Prepending an argument at the front of a command line. */
  lemma {:induction false} CommandLineFront(cmd: string, a: string, rest: seq<string>, encode: string -> string)
    ensures CommandLine(cmd, [a] + rest, encode) == cmd + " " + CommandLine(encode(a), rest, encode)
    decreases |rest|
  {
    if rest != [] {
      var all := [a] + rest;
      assert all[..|all| - 1] == [a] + rest[..|rest| - 1];
      assert all[|all| - 1] == rest[|rest| - 1];
      CommandLineFront(cmd, a, rest[..|rest| - 1], encode);
    } else {
      assert [a] + rest == [a];
      assert [a][..0] == [];
    }
  }

  /** The words of a command line are the verb and the encoded arguments, when none of them is empty or holds whitespace. */
  lemma {:induction false} WordsOfCommandLine(cmd: string, args: seq<string>, encode: string -> string)
    requires IsToken(cmd, IsSpace)
    requires forall i :: 0 <= i < |args| ==> IsToken(encode(args[i]), IsSpace)
    ensures Words(CommandLine(cmd, args, encode)) == [cmd] + MapAll(args, encode)
    decreases |args|
  {
    if args == [] {
      TokensOfToken(cmd, IsSpace);
    } else {
      var rest := args[1..];
      assert args == [args[0]] + rest;
      CommandLineFront(cmd, args[0], rest, encode);
      WordsOfCommandLine(encode(args[0]), rest, encode);
      TokensCons(cmd, ' ', CommandLine(encode(args[0]), rest, encode), IsSpace);
      assert cmd + " " + CommandLine(encode(args[0]), rest, encode)
          == cmd + [' '] + CommandLine(encode(args[0]), rest, encode);
      assert [encode(args[0])] + MapAll(rest, encode) == MapAll(args, encode);
    }
  }

  /**
   * Round trip of the wire format: parsing a line written with `send_cmd`
   * gives back the verb and, for each argument, `decode(encode(arg))`,
   * provided the verb and every encoded argument are non-empty and free of
   * whitespace (the simple encode set leaves spaces unescaped, so an argument
   * holding a space comes back as two arguments).
   */
  lemma ParseCommandLine(cmd: string, args: seq<string>, codec: Codec)
    requires IsToken(cmd, IsSpace)
    requires forall i :: 0 <= i < |args| ==> IsToken(codec.encode(args[i]), IsSpace)
    ensures Parse(CommandLine(cmd, args, codec.encode), codec.decode).0 == cmd
    ensures var parsed := Parse(CommandLine(cmd, args, codec.encode), codec.decode).1;
      |parsed| == |args| && forall i :: 0 <= i < |args| ==> parsed[i] == codec.decode(codec.encode(args[i]))
  {
    WordsOfCommandLine(cmd, args, codec.encode);
    var ws := Words(CommandLine(cmd, args, codec.encode));
    assert ws[1..] == MapAll(args, codec.encode);
  }

}
