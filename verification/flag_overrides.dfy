/** What reading overrides from the command line rules out (service_flags.cc, node_client.cc). */
module FlagOverrides {
  import opened Options
  import opened EntityConfig
  import opened NodeOverrides
  import opened OverrideFlag
  import opened Text

  /** The address group of the pattern takes at least one character. */
  lemma ReadAddressed(text: string)
    ensures ParseOverride(text).Some? ==> ParseOverride(text).value.targetAddress != ""
  {
    if Greedy(text).Some? {
      var e := Greedy(text).value;
      assert |text[e.a + 3..e.b]| > 0;
    }
  }

  lemma {:induction false} UpToErrorAddressed(read: seq<Option<NodeOverride>>)
    requires forall k | 0 <= k < |read| :: read[k].Some? ==> read[k].value.targetAddress != ""
    ensures Addressed(UpToError(read).0)
  {
    if read != [] { UpToErrorAddressed(read[1..]); }
  }

  /** Every override that a flag value adds to the vector has an address, even when the value is not read to its end. */
  lemma FlagIsAddressed(overrides: seq<NodeOverride>, text: string)
    requires Addressed(overrides)
    ensures Addressed(overrides + ParseList(text).0)
  {
    if text != "" {
      var pieces := Split(text, ',');
      forall k | 0 <= k < |pieces|
        ensures ReadPieces(pieces)[k].Some? ==> ReadPieces(pieces)[k].value.targetAddress != ""
      {
        ReadAddressed(pieces[k]);
      }
      UpToErrorAddressed(ReadPieces(pieces));
    }
  }

  /** So whatever the command line says, applying its overrides twice is applying them once, and one configuration
      is added for each of its unseen keys. */
  lemma FlagAppliedTwice(configs: seq<EntityConfiguration>, text: string)
    ensures var list := ParseList(text).0; var once := AppliedAll(configs, list);
            AppliedAll(once, list) == once && |once| == |configs| + |UnseenKeys(configs, list)|
  {
    FlagIsAddressed([], text);
    assert [] + ParseList(text).0 == ParseList(text).0;
    AddressedNeverLeaks(configs, ParseList(text).0);
    KeysUnchanged(configs, ParseList(text).0);
  }
}
