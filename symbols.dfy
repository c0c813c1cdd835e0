/// The symbolicator, seen from the decoder: src/perf_data_parser/symbolicator.rs
/// loads the profiled binary's debug information for a load address and
/// turns instruction pointers into function names. Both steps read files and
/// parse DWARF data, so the model takes them as an oracle.
module Symbols {
  import opened Options
  import opened Wire

  /** `load(base)`: whether `Symbolicator::new(binary, base)` succeeds.
      `lookup(base, ip)`: what `lookup_symbol(ip)` returns on the symbolicator
      built for `base` (the real one subtracts the load bias
      `base + text_address - 0x7D1E40` from `ip` before asking the debug
      tables); `None` stands for its error. */
  datatype Oracle = Oracle(load: U64 -> bool, lookup: (U64, U64) -> Option<string>)

  /** The stack trace of a call chain: one lookup per address, in call-chain
      order; any failing lookup fails the whole trace (`collect` into a
      `Result`, then `?`). */
  function Symbolize(oracle: Oracle, base: U64, ips: seq<U64>): (names: Option<seq<string>>)
    ensures names.Some? <==> forall i :: 0 <= i < |ips| ==> oracle.lookup(base, ips[i]).Some?
    ensures names.Some? ==> |names.value| == |ips|
    ensures names.Some? ==>
              forall i :: 0 <= i < |ips| ==> names.value[i] == oracle.lookup(base, ips[i]).value
  {
    if ips == [] then Some([])
    else
      match oracle.lookup(base, ips[0])
      case None => None
      case Some(name) =>
        match Symbolize(oracle, base, ips[1..])
        case None => None
        case Some(rest) => Some([name] + rest)
  }
}
