/** Derivation paths: printed for an address and read back to sign with its key
    (internal/wallet/wallet.go, internal/wallet/spend.go). */
module Paths {
  import opened Basics
  import opened Amounts

  const HARDENED := 0x8000_0000
  const PURPOSE := 84

  function Harden(v: nat): nat { (v + HARDENED) % 0x1_0000_0000 }

  /** The steps an address is derived with, and the path printed for it. */
  function StepsOf(coin: nat, chain: nat, index: nat): seq<nat> {
    [Harden(PURPOSE), Harden(coin), Harden(0), chain, index]
  }

  function PathOf(coin: nat, chain: nat, index: nat): string {
    "m" + "/" + (Dec(PURPOSE) + "'" + "/" + (Dec(coin) + "'" + "/" + (Dec(0) + "'" + "/" + (Dec(chain) + "/" + Dec(index)))))
  }

  /** The parts of a path between slashes. */
  function Split(s: string): (parts: seq<string>)
    ensures |parts| > 0
  {
    if s == "" then [""]
    else
      var rest := Split(s[1..]);
      if s[0] == '/' then [""] + rest else [[s[0]] + rest[0]] + rest[1..]
  }

  /** A number below a bound in decimal, without a sign. */
  function ParseUint(s: string, bound: nat): Option<nat> {
    if s == "" || !AllDigits(s) || Value(s) >= bound then None else Some(Value(s))
  }

  /** One step of a path; a trailing quote marks a hardened one. */
  function StepOf(part: string): Option<nat> {
    var hardened := part != "" && part[|part| - 1] == '\'';
    var n := ParseUint(if hardened then part[..|part| - 1] else part, HARDENED);
    if n.None? then None else Some(if hardened then Harden(n.value) else n.value)
  }

  function StepsFrom(parts: seq<string>): Option<seq<nat>> {
    if parts == [] then Some([])
    else
      var step := StepOf(parts[0]);
      var rest := StepsFrom(parts[1..]);
      if step.None? || rest.None? then None else Some([step.value] + rest.value)
  }

  function Prepended(read: seq<nat>, rest: Option<seq<nat>>): Option<seq<nat>> {
    if rest.None? then None else Some(read + rest.value)
  }

  lemma PrependNothing(rest: Option<seq<nat>>)
    ensures Prepended([], rest) == rest
  {
    assert rest.Some? ==> [] + rest.value == rest.value;
  }

  lemma PrependMore(read: seq<nat>, step: nat, rest: Option<seq<nat>>)
    ensures Prepended(read + [step], rest) == Prepended(read, Prepended([step], rest))
  {
    assert rest.Some? ==> read + [step] + rest.value == read + ([step] + rest.value);
  }

  /** The steps a path stands for. */
  method KeyForPath(path: string) returns (steps: Option<seq<nat>>)
    ensures steps == ReadPath(path)
  {
    var parts := Split(path);
    if |parts| < 2 || parts[0] != "m" {
      return None;
    }
    var read: seq<nat> := [];
    PrependNothing(StepsFrom(parts[1..]));
    for n := 1 to |parts|
      invariant StepsFrom(parts[1..]) == Prepended(read, StepsFrom(parts[n..]))
    {
      var step := StepOf(parts[n]);
      assert parts[n..][0] == parts[n] && parts[n..][1..] == parts[n + 1..];
      if step.None? {
        return None;
      }
      PrependMore(read, step.value, StepsFrom(parts[n + 1..]));
      read := read + [step.value];
    }
    assert read + [] == read;
    return Some(read);
  }

  function ReadPath(path: string): Option<seq<nat>> {
    var parts := Split(path);
    if |parts| < 2 || parts[0] != "m" then None else StepsFrom(parts[1..])
  }

  lemma {:induction false} SplitJoined(a: string, b: string)
    requires '/' !in a
    ensures Split(a) == [a] && Split(a + "/" + b) == [a] + Split(b)
  {
    if a == "" {
      assert ("" + "/" + b)[1..] == b;
    } else {
      SplitJoined(a[1..], b);
      assert a == [a[0]] + a[1..];
      assert (a + "/" + b)[1..] == a[1..] + "/" + b;
    }
  }

  lemma PlainStep(n: nat)
    ensures '/' !in Dec(n) && StepOf(Dec(n)) == if n < HARDENED then Some(n) else None
  {
    var s := Dec(n);
    assert IsDigit(s[|s| - 1]);
  }

  lemma HardenedStep(n: nat)
    requires n < HARDENED
    ensures '/' !in Dec(n) + "'" && StepOf(Dec(n) + "'") == Some(Harden(n))
  {
    var s := Dec(n);
    assert (s + "'")[..|s|] == s;
  }

  /** The steps are those of BIP 84: purpose, coin and account hardened, then chain and index. */
  lemma StepsNamed(coin: nat, chain: nat, index: nat)
    requires coin < HARDENED
    ensures StepsOf(coin, chain, index) == [84 + 0x8000_0000, coin + 0x8000_0000, 0x8000_0000, chain, index]
  {
  }

  /** Reading a printed path gives the steps it was printed for, exactly when
      its last index is not a hardened one. */
  lemma ReadUndoesPrint(coin: nat, chain: nat, index: nat)
    requires coin < HARDENED && chain < HARDENED
    ensures ReadPath(PathOf(coin, chain, index)) == if index < HARDENED then Some(StepsOf(coin, chain, index)) else None
  {
    hide Dec, Split, StepOf, Harden;
    HardenedStep(PURPOSE);
    HardenedStep(coin);
    HardenedStep(0);
    PlainStep(chain);
    PlainStep(index);
    var e := Dec(index);
    var d := Dec(chain) + "/" + e;
    var c := Dec(0) + "'" + "/" + d;
    var b := Dec(coin) + "'" + "/" + c;
    var a := Dec(PURPOSE) + "'" + "/" + b;
    SplitJoined(e, "");
    SplitJoined(Dec(chain), e);
    SplitJoined(Dec(0) + "'", d);
    SplitJoined(Dec(coin) + "'", c);
    SplitJoined(Dec(PURPOSE) + "'", b);
    SplitJoined("m", a);
    var parts := [Dec(PURPOSE) + "'", Dec(coin) + "'", Dec(0) + "'", Dec(chain), Dec(index)];
    assert Split(PathOf(coin, chain, index))[1..] == parts;
    FiveSteps(parts);
  }

  lemma FiveSteps(parts: seq<string>)
    requires |parts| == 5
    ensures StepsFrom(parts) ==
            if StepOf(parts[0]).Some? && StepOf(parts[1]).Some? && StepOf(parts[2]).Some? && StepOf(parts[3]).Some? && StepOf(parts[4]).Some?
            then Some([StepOf(parts[0]).value, StepOf(parts[1]).value, StepOf(parts[2]).value, StepOf(parts[3]).value, StepOf(parts[4]).value])
            else None
  {
    hide StepOf;
    assert parts[0..] == parts && parts[5..] == [];
    StepAt(parts, 0);
    StepAt(parts, 1);
    StepAt(parts, 2);
    StepAt(parts, 3);
    StepAt(parts, 4);
    assert StepsFrom([]) == Some([]);
    if StepsFrom(parts).Some? {
      var a, b, c, d, e := StepOf(parts[0]).value, StepOf(parts[1]).value, StepOf(parts[2]).value, StepOf(parts[3]).value, StepOf(parts[4]).value;
      assert [a] + ([b] + ([c] + ([d] + ([e] + [])))) == [a, b, c, d, e];
    }
  }

  lemma StepAt(parts: seq<string>, k: nat)
    requires k < |parts|
    ensures StepsFrom(parts[k..]) == if StepOf(parts[k]).None? then None else Prepended([StepOf(parts[k]).value], StepsFrom(parts[k + 1..]))
  {
    assert parts[k..][0] == parts[k] && parts[k..][1..] == parts[k + 1..];
  }

  /** A part stands for a step: a number below 2^31, and 2^31 more with a quote. */
  ghost predicate StandsFor(part: string, step: nat) {
    exists digits :: IsNumber(digits) && ((part == digits && step == Value(digits)) || (part == digits + "'" && step == Value(digits) + 0x8000_0000))
  }

  predicate IsNumber(s: string) {
    s != "" && AllDigits(s) && Value(s) < 0x8000_0000
  }

  lemma StepIs(part: string, step: nat)
    ensures StepOf(part) == Some(step) <==> StandsFor(part, step)
    ensures StandsFor(part, step) ==> '/' !in part
  {
    hide Value;
    var hardened := part != "" && part[|part| - 1] == '\'';
    var digits := if hardened then part[..|part| - 1] else part;
    if StepOf(part) == Some(step) {
      assert IsNumber(digits);
      assert hardened ==> part == digits + "'";
    }
    if StandsFor(part, step) {
      var d :| IsNumber(d) && ((part == d && step == Value(d)) || (part == d + "'" && step == Value(d) + 0x8000_0000));
      assert IsDigit(d[|d| - 1]);
      assert part == d + "'" ==> part[..|part| - 1] == d;
    }
  }

  function Joined(parts: seq<string>): string
    requires parts != []
  {
    if |parts| == 1 then parts[0] else parts[0] + "/" + Joined(parts[1..])
  }

  lemma {:induction false} SplitOfJoined(parts: seq<string>)
    requires parts != [] && forall i :: 0 <= i < |parts| ==> '/' !in parts[i]
    ensures Split(Joined(parts)) == parts
  {
    if |parts| == 1 {
      SplitJoined(parts[0], "");
    } else {
      SplitOfJoined(parts[1..]);
      SplitJoined(parts[0], Joined(parts[1..]));
    }
  }

  lemma {:induction false} JoinedOfSplit(s: string)
    ensures Joined(Split(s)) == s
  {
    if s != "" {
      var rest := Split(s[1..]);
      JoinedOfSplit(s[1..]);
      if s[0] == '/' {
        assert ([""] + rest)[1..] == rest;
        assert "" + "/" + s[1..] == s;
      } else {
        assert ([[s[0]] + rest[0]] + rest[1..])[1..] == rest[1..];
        assert |rest| > 1 ==> [s[0]] + rest[0] + "/" + Joined(rest[1..]) == [s[0]] + (rest[0] + "/" + Joined(rest[1..]));
        assert [s[0]] + s[1..] == s;
      }
    }
  }

  /** The parts stand for the steps, one for one. */
  ghost predicate AllStand(parts: seq<string>, steps: seq<nat>) {
    |parts| == |steps| && forall i :: 0 <= i < |parts| ==> StandsFor(parts[i], steps[i])
  }

  lemma FirstStands(part: string, parts: seq<string>, step: nat, steps: seq<nat>)
    ensures AllStand([part] + parts, [step] + steps) <==> StandsFor(part, step) && AllStand(parts, steps)
  {
    hide StandsFor;
    var ps, ss := [part] + parts, [step] + steps;
    assert ps[0] == part && ss[0] == step;
    assert forall i :: 0 <= i < |parts| ==> ps[i + 1] == parts[i];
    assert forall i :: 0 <= i < |steps| ==> ss[i + 1] == steps[i];
    if AllStand(ps, ss) {
      forall i | 0 <= i < |parts|
        ensures StandsFor(parts[i], steps[i])
      {
        assert StandsFor(ps[i + 1], ss[i + 1]);
      }
    }
  }

  lemma {:induction false} StepsAre(parts: seq<string>, steps: seq<nat>)
    ensures StepsFrom(parts) == Some(steps) <==> AllStand(parts, steps)
  {
    hide StepOf, StandsFor;
    if parts != [] && steps != [] {
      hide AllStand;
      StepsAre(parts[1..], steps[1..]);
      StepIs(parts[0], steps[0]);
      FirstStands(parts[0], parts[1..], steps[0], steps[1..]);
      assert parts == [parts[0]] + parts[1..] && steps == [steps[0]] + steps[1..];
    }
  }

  /** A path is read as steps exactly when it is an m and parts that stand for
      them, one after the other, slashes between. */
  lemma ReadIs(path: string, steps: seq<nat>)
    ensures ReadPath(path) == Some(steps) <==>
            steps != [] && exists parts: seq<string> :: AllStand(parts, steps) && path == Joined(["m"] + parts)
  {
    hide StepsFrom, StandsFor, Split, Joined;
    if ReadPath(path) == Some(steps) {
      var all := Split(path);
      JoinedOfSplit(path);
      StepsAre(all[1..], steps);
      assert all == ["m"] + all[1..];
    }
    if parts: seq<string> :| steps != [] && AllStand(parts, steps) && path == Joined(["m"] + parts) {
      var all := ["m"] + parts;
      forall i | 0 <= i < |parts|
        ensures '/' !in parts[i]
      {
        StepIs(parts[i], steps[i]);
      }
      SplitOfJoined(all);
      StepsAre(parts, steps);
      assert all[1..] == parts;
    }
  }

  /** Addresses of different places have different paths. */
  lemma PathsDiffer(coin: nat, chain: nat, index: nat, otherChain: nat, otherIndex: nat)
    requires coin < HARDENED && chain < HARDENED && otherChain < HARDENED && index < HARDENED && otherIndex < HARDENED
    ensures PathOf(coin, chain, index) == PathOf(coin, otherChain, otherIndex) <==> chain == otherChain && index == otherIndex
  {
    hide PathOf, ReadPath, Harden;
    ReadUndoesPrint(coin, chain, index);
    ReadUndoesPrint(coin, otherChain, otherIndex);
    assert StepsOf(coin, chain, index)[3] == chain && StepsOf(coin, chain, index)[4] == index;
    assert StepsOf(coin, otherChain, otherIndex)[3] == otherChain && StepsOf(coin, otherChain, otherIndex)[4] == otherIndex;
  }
}
