/**
 * Command-line handling shared, line for line, by the sync agent and the
 * reply tool: `getArg`, presence of a bare flag, and JavaScript's
 * truthiness of an optional string.
 */
module Cli {
  import opened Wrappers
  import opened Seqs

  /** A JavaScript string value that is neither missing nor "". */
  predicate Truthy(v: Option<string>)
  {
    v.Some? && v.value != ""
  }

  /** `a || b` on two optional strings. */
  function OrElse(a: Option<string>, b: Option<string>): (r: Option<string>)
    ensures Truthy(a) ==> r == a
    ensures !Truthy(a) ==> r == b
    ensures Truthy(r) <==> Truthy(a) || Truthy(b)
  {
    if Truthy(a) then a else b
  }

  /** `getArg(name)`: the token right after the first `--name`; nothing when
      the flag is absent or is the last token. */
  function GetArg(args: seq<string>, name: string): (r: Option<string>)
    ensures ("--" + name) !in args ==> r == None
    ensures forall i :: 0 <= i < |args| && args[i] == "--" + name && ("--" + name) !in args[..i] ==>
              r == if i + 1 < |args| then Some(args[i + 1]) else None
  {
    match IndexOf(args, "--" + name)
    case None => None
    case Some(i) =>
      if i + 1 < |args| then Some(args[i + 1]) else None
  }

  /** `args.includes(flag)`. */
  predicate HasFlag(args: seq<string>, flag: string)
  {
    flag in args
  }
}
