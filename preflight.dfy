/**
 * The tool check that runs first: each required tool is looked up on the search
 * path in a fixed order, and the first one that is missing stops the program.
 */
module Preflight {
  import opened Wrappers

  const REQUIRED_COMMANDS: seq<string> := ["qemu-img", "virsh", "virt-install"]

  /** The first tool of `tools`, in order, that `found` does not find; None when every one is found. */
  function FirstMissing(tools: seq<string>, found: string -> bool): (r: Option<string>)
    ensures r.None? <==> forall i | 0 <= i < |tools| :: found(tools[i])
    ensures r.Some? ==>
              exists k | 0 <= k < |tools| ::
                tools[k] == r.value && !found(tools[k]) && forall j | 0 <= j < k :: found(tools[j])
  {
    if tools == [] then None
    else if !found(tools[0]) then Some(tools[0])
    else
      var rest := FirstMissing(tools[1..], found);
      assert rest.Some? ==>
               exists k | 0 <= k < |tools| ::
                 tools[k] == rest.value && !found(tools[k]) && forall j | 0 <= j < k :: found(tools[j]) by {
        if rest.Some? {
          var k :| 0 <= k < |tools[1..]| && tools[1..][k] == rest.value && !found(tools[1..][k])
                   && forall j | 0 <= j < k :: found(tools[1..][j]);
          assert tools[k + 1] == rest.value && !found(tools[k + 1]);
          assert forall j | 0 <= j < k + 1 :: found(tools[j]) by {
            forall j | 0 <= j < k + 1 ensures found(tools[j]) {
              if j > 0 { assert tools[j] == tools[1..][j - 1]; }
            }
          }
        }
      }
      assert rest.None? ==> forall i | 0 <= i < |tools| :: found(tools[i]) by {
        if rest.None? {
          forall i | 0 <= i < |tools| ensures found(tools[i]) {
            if i > 0 { assert tools[i] == tools[1..][i - 1]; }
          }
        }
      }
      rest
  }

  /**
   * Looks up the required tools in order and stops at the first one missing.
   * `probed` is the list of names looked up, `missing` the tool that was not found.
   */
  method CheckRequiredCommands(found: string -> bool) returns (probed: seq<string>, missing: Option<string>)
    ensures missing == FirstMissing(REQUIRED_COMMANDS, found)
    ensures missing.None? <==> forall i | 0 <= i < |REQUIRED_COMMANDS| :: found(REQUIRED_COMMANDS[i])
    ensures |probed| <= |REQUIRED_COMMANDS| && probed == REQUIRED_COMMANDS[..|probed|]
    ensures missing.None? ==> probed == REQUIRED_COMMANDS
    ensures missing.Some? ==> |probed| > 0 && probed[|probed| - 1] == missing.value
    ensures forall j | 0 <= j < |probed| - 1 :: found(probed[j])
  {
    probed := [];
    for i := 0 to |REQUIRED_COMMANDS|
      invariant probed == REQUIRED_COMMANDS[..i]
      invariant forall j | 0 <= j < i :: found(REQUIRED_COMMANDS[j])
    {
      var cmd := REQUIRED_COMMANDS[i];
      probed := probed + [cmd];
      if !found(cmd) {
        missing := Some(cmd);
        FirstMissingAt(REQUIRED_COMMANDS, found, i);
        return;
      }
    }
    missing := None;
  }

  /** A tool that is missing while every tool before it is found is the one reported. */
  lemma FirstMissingAt(tools: seq<string>, found: string -> bool, i: nat)
    requires i < |tools| && !found(tools[i])
    requires forall j | 0 <= j < i :: found(tools[j])
    ensures FirstMissing(tools, found) == Some(tools[i])
  {
    var r := FirstMissing(tools, found);
    var k :| 0 <= k < |tools| && tools[k] == r.value && !found(tools[k])
             && forall j | 0 <= j < k :: found(tools[j]);
    assert k == i;
  }
}
