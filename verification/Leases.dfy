/** Resources of one request: the clean-up stack of src/domain/contracts.ts, the `attempt`
    closure of src/app/request.ts, and the settling of admission and in-flight counters. */
module Leases {

  datatype Resource = CredentialLease(id: nat) | NetworkSlot(id: nat) | ProviderMark(provider: string)

  /** What was taken and what was given back, in order. */
  class Ledger {
    var taken: seq<Resource>
    var given: seq<Resource>

    constructor ()
      ensures taken == [] && given == []
    {
      taken, given := [], [];
    }
  }

  /** The releases that happen when `handles` are unwound from the top: a release that
      throws is the last one. */
  function Unwound(handles: seq<Resource>, faulty: set<Resource>): seq<Resource> {
    if handles == [] then []
    else
      var last := handles[|handles| - 1];
      [last] + if last in faulty then [] else Unwound(handles[..|handles| - 1], faulty)
  }

  predicate Interrupted(handles: seq<Resource>, faulty: set<Resource>) {
    exists i :: 0 <= i < |handles| && handles[i] in faulty
  }

  function Reverse(s: seq<Resource>): seq<Resource> {
    if s == [] then [] else [s[|s| - 1]] + Reverse(s[..|s| - 1])
  }

  /** Unwinding gives resources back in reverse order of taking, each at most once, and all
      of them exactly when no release below the first taken one throws. */
  lemma {:induction false} UnwoundIsReversePrefix(handles: seq<Resource>, faulty: set<Resource>)
    ensures Unwound(handles, faulty) <= Reverse(handles)
    ensures |Reverse(handles)| == |handles|
    ensures Unwound(handles, faulty) == Reverse(handles) <==> forall i :: 0 < i < |handles| ==> handles[i] !in faulty
  {
    if handles != [] {
      var rest := handles[..|handles| - 1];
      UnwoundIsReversePrefix(rest, faulty);
      assert forall i :: 0 <= i < |rest| ==> rest[i] == handles[i];
      if rest != [] && handles[|handles| - 1] !in faulty {
        var last := [handles[|handles| - 1]];
        assert (last + Unwound(rest, faulty))[1..] == Unwound(rest, faulty);
        assert (last + Reverse(rest))[1..] == Reverse(rest);
      }
    }
  }

  /** Unwinding raises exactly when a release it reaches throws. */
  lemma {:induction false} RaisesIffReleaseThrows(handles: seq<Resource>, faulty: set<Resource>)
    ensures Interrupted(handles, faulty) <==> exists r :: r in Unwound(handles, faulty) && r in faulty
  {
    if handles != [] {
      var rest, last := handles[..|handles| - 1], handles[|handles| - 1];
      RaisesIffReleaseThrows(rest, faulty);
      if i :| 0 <= i < |handles| && handles[i] in faulty && last !in faulty { assert rest[i] in faulty; }
      assert last in Unwound(handles, faulty);
    }
  }

  lemma UnwoundStep(all: seq<Resource>, n: nat, faulty: set<Resource>)
    requires 0 < n <= |all|
    ensures all[..n][..n - 1] == all[..n - 1]
    ensures Unwound(all[..n], faulty) == [all[n - 1]] + if all[n - 1] in faulty then []
            else Unwound(all[..n - 1], faulty)
  {
    assert all[..n][..n - 1] == all[..n - 1];
  }

  lemma AppendAssociates(a: seq<Resource>, x: Resource, b: seq<Resource>)
    ensures a + ([x] + b) == (a + [x]) + b
    ensures a + ([x] + []) == a + [x]
  {
  }

  class CleanupStack {
    const ledger: Ledger
    var handles: seq<Resource>
    var finished: bool

    constructor (ledger: Ledger)
      ensures this.ledger == ledger && handles == [] && !finished
    {
      this.ledger := ledger;
      handles, finished := [], false;
    }

    method Add(handle: Resource)
      modifies this`handles, ledger`given
      ensures if finished then handles == old(handles) && ledger.given == old(ledger.given) + [handle]
              else handles == old(handles) + [handle] && ledger.given == old(ledger.given)
    {
      if finished {
        ledger.given := ledger.given + [handle];
        return;
      }
      handles := handles + [handle];
    }

    /** Releases everything once, last added first; a second call does nothing. */
    method Run(faulty: set<Resource>) returns (raised: bool)
      modifies this, ledger`given
      ensures finished
      ensures if old(finished) then !raised && handles == old(handles) && ledger.given == old(ledger.given)
              else raised == Interrupted(old(handles), faulty)
                   && ledger.given == old(ledger.given) + Unwound(old(handles), faulty)
    {
      if finished { return false; }
      finished := true;
      ghost var all, before, n := handles, ledger.given, |handles|;
      assert all[..n] == all;
      while |handles| > 0
        invariant finished && n <= |all| && handles == all[..n]
        invariant ledger.given + Unwound(all[..n], faulty) == before + Unwound(all, faulty)
        invariant forall i :: n <= i < |all| ==> all[i] !in faulty
        decreases |handles|
      {
        UnwoundStep(all, n, faulty);
        var handle := handles[|handles| - 1];
        ghost var soFar := ledger.given;
        handles := handles[..|handles| - 1];
        n := n - 1;
        ledger.given := ledger.given + [handle];
        AppendAssociates(soFar, handle, Unwound(all[..n], faulty));
        if handle in faulty {
          assert all[n] in faulty;
          return true;
        }
      }
      assert ledger.given + [] == ledger.given;
      return false;
    }
  }

  // ------------------------------------------------------------ one attempt

  datatype Selection = SelectThrew | SelectedNone | Selected(id: nat)
  datatype AdapterCall = CallThrew | CallNonStream | CallStream

  /** What every await and every check of the `attempt` closure answers. */
  datatype Script = Script(
    provider: string,
    adapterKnown: bool,
    needsCredential: bool,
    credential: Selection,
    network: Selection,
    wireSurfaceKnown: bool,
    targetThrows: bool,
    call: AdapterCall,
    translationThrows: bool)

  datatype AttemptResult = Failed | Replied | HandedOff

  /** The leases an attempt selects: none without an adapter, then the credential, then
      the network slot, stopping at the first that cannot be had. */
  function Selections(script: Script): seq<Resource> {
    if !script.adapterKnown || (script.needsCredential && !script.credential.Selected?) then []
    else
      (if script.needsCredential then [CredentialLease(script.credential.id)] else [])
      + (if script.network.Selected? then [NetworkSlot(script.network.id)] else [])
  }

  predicate ReachesCall(script: Script) {
    && script.adapterKnown
    && (script.needsCredential ==> script.credential.Selected?)
    && script.network.Selected? && script.wireSurfaceKnown && !script.targetThrows
  }

  /** Everything an attempt takes, in order; the in-flight mark last, once it calls. */
  function Taken(script: Script): seq<Resource> {
    if ReachesCall(script) then Selections(script) + [ProviderMark(script.provider)] else Selections(script)
  }

  /** What an attempt takes, one by one: a credential lease when the adapter is known, needs one
      and gets one; a network slot when one is found after that; and the provider's in-flight mark
      when also the wire surface is known and the target resolves. */
  lemma TakenOneByOne(script: Script, id: nat)
    ensures CredentialLease(id) in Taken(script) <==>
            script.adapterKnown && script.needsCredential && script.credential == Selected(id)
    ensures NetworkSlot(id) in Taken(script) <==>
            && script.adapterKnown && (script.needsCredential ==> script.credential.Selected?)
            && script.network == Selected(id)
    ensures ProviderMark(script.provider) in Taken(script) <==>
            && script.adapterKnown && (script.needsCredential ==> script.credential.Selected?)
            && script.network.Selected? && script.wireSurfaceKnown && !script.targetThrows
  {
  }

  /** The wrapper generator around a provider stream; `Close` is its `finally`. */
  class ProviderStream {
    const stack: CleanupStack
    const provider: string

    constructor (stack: CleanupStack, provider: string)
      ensures this.stack == stack && this.provider == provider
    {
      this.stack, this.provider := stack, provider;
    }

    method Close(faulty: set<Resource>) returns (raised: bool)
      requires ProviderMark(provider) !in faulty && !stack.finished
      modifies stack, stack.ledger`given
      ensures stack.finished
      ensures stack.ledger.given == old(stack.ledger.given) + Unwound(old(stack.handles) + [ProviderMark(provider)],
              faulty)
    {
      stack.ledger.given := stack.ledger.given + [ProviderMark(provider)];
      MarkFirst(stack.handles, ProviderMark(provider), faulty);
      AppendAssociates(old(stack.ledger.given), ProviderMark(provider), Unwound(stack.handles, faulty));
      raised := stack.Run(faulty);
    }
  }

  lemma MarkFirst(handles: seq<Resource>, mark: Resource, faulty: set<Resource>)
    requires mark !in faulty
    ensures Unwound(handles + [mark], faulty) == [mark] + Unwound(handles, faulty)
  {
    assert (handles + [mark])[..|handles|] == handles;
  }

  /** The two `select` awaits; false when either of them fails. */
  method Select(script: Script, stack: CleanupStack) returns (selected: bool)
    requires script.adapterKnown && !stack.finished && stack.handles == []
    modifies stack`handles, stack.ledger
    ensures stack.handles == Selections(script)
    ensures stack.ledger.taken == old(stack.ledger.taken) + Selections(script)
    ensures stack.ledger.given == old(stack.ledger.given)
    ensures selected <==> (script.needsCredential ==> script.credential.Selected?) && script.network.Selected?
  {
    if script.needsCredential {
      if !script.credential.Selected? { return false; }
      stack.Add(CredentialLease(script.credential.id));
    }
    if script.network.Selected? {
      stack.Add(NetworkSlot(script.network.id));
    }
    stack.ledger.taken := stack.ledger.taken + stack.handles;
    return script.network.Selected?;
  }

  /** The `attempt` closure. Whatever way it leaves, it has taken `Taken(script)`; unless it
      hands a stream off it has by then unwound exactly those, the mark first. */
  method Attempt(script: Script, ledger: Ledger, faulty: set<Resource>)
      returns (result: AttemptResult, stream: ProviderStream?)
    requires ProviderMark(script.provider) !in faulty
    modifies ledger
    ensures ledger.taken == old(ledger.taken) + Taken(script)
    ensures result.HandedOff? <==> stream != null
    ensures stream != null <==> ReachesCall(script) && script.call.CallStream?
    ensures stream != null ==>
              && fresh(stream) && fresh(stream.stack) && stream.stack.ledger == ledger && !stream.stack.finished
              && stream.provider == script.provider
              && stream.stack.handles + [ProviderMark(script.provider)] == Taken(script)
              && ledger.given == old(ledger.given)
    ensures stream == null ==> ledger.given == old(ledger.given) + Unwound(Taken(script), faulty)
    ensures result.Replied? <==> ReachesCall(script) && script.call.CallNonStream? && !script.translationThrows
                                 && !Interrupted(Taken(script), faulty)
  {
    stream := null;
    if !script.adapterKnown { return Failed, null; }
    var stack := new CleanupStack(ledger);
    var selected := Select(script, stack);
    if !selected || !script.wireSurfaceKnown || script.targetThrows {
      var _ := stack.Run(faulty);
      return Failed, null;
    }
    var mark := ProviderMark(script.provider);
    AppendAssociates(ledger.taken, mark, []);
    assert old(ledger.taken) + Selections(script) + [mark] == old(ledger.taken) + (Selections(script) + [mark]);
    ledger.taken := ledger.taken + [mark];
    if script.call.CallStream? {
      stream := new ProviderStream(stack, script.provider);
      return HandedOff, stream;
    }
    MarkFirst(stack.handles, mark, faulty);
    AppendAssociates(ledger.given, mark, Unwound(stack.handles, faulty));
    ledger.given := ledger.given + [mark];
    var raised := stack.Run(faulty);
    result := if script.call.CallThrew? || script.translationThrows || raised then Failed else Replied;
    var _ := stack.Run(faulty);
  }

  /** What an attempt gives back over its whole life: at its end, or when its stream is
      closed, or never if its stream is handed off and never read. */
  function GivenBack(script: Script, streamRead: bool, faulty: set<Resource>): seq<Resource> {
    if ReachesCall(script) && script.call.CallStream? && !streamRead then [] else Unwound(Taken(script), faulty)
  }

  /** An attempt on a fresh ledger and, when its stream is read, the end of that stream: what
      it takes and what it gives back over its whole life. */
  method LiveThrough(script: Script, streamRead: bool, faulty: set<Resource>)
      returns (taken: seq<Resource>, given: seq<Resource>)
    requires ProviderMark(script.provider) !in faulty
    ensures taken == Taken(script) && given == GivenBack(script, streamRead, faulty)
  {
    var ledger := new Ledger();
    var _, stream := Attempt(script, ledger, faulty);
    if stream != null && streamRead {
      var _ := stream.Close(faulty);
    }
    return ledger.taken, ledger.given;
  }

  /** Each resource is given back at most once and in reverse order of taking; everything
      comes back when releases do not throw and a handed-off stream is read; an unread
      stream gives nothing back although its attempt took at least two resources. */
  lemma AttemptLedger(script: Script, streamRead: bool, faulty: set<Resource>)
    ensures GivenBack(script, streamRead, faulty) <= Reverse(Taken(script))
    ensures faulty == {} ==>
              (GivenBack(script, streamRead, faulty) == Reverse(Taken(script))
               <==> !(ReachesCall(script) && script.call.CallStream? && !streamRead))
  {
    UnwoundIsReversePrefix(Taken(script), faulty);
    if ReachesCall(script) { TakesTheMark(script); }
    hide Unwound, Reverse, Taken, ReachesCall, Selections;
  }

  lemma TakesTheMark(script: Script)
    requires ReachesCall(script)
    ensures Taken(script) != []
  {
    assert Taken(script)[|Taken(script)| - 1] == ProviderMark(script.provider);
  }
}
