/** The NIP-OA auth tag: signing, validating, finding one on an event, and loading one from a secret.

    Key parsing and Schnorr verification are parameters. */
module AuthTag {
  import opened Wrappers
  import opened Text
  import opened NipOa

  datatype Crypto = Crypto(
    equalFold: (string, string) -> bool,
    validPubkey: string -> bool,
    validSignature: string -> bool,
    verifies: (string, string, string) -> bool)  // owner, preimage, signature

  datatype TagError =
    | ElementCount(count: nat)
    | WrongName(name: string)
    | OwnerIsAgent
    | Conditions(error: ConditionError)
    | InvalidPubkey
    | InvalidSignature

  function SignAuthTag(owner: string, agent: string, conditions: string, sign: string -> string, crypto: Crypto):
    Result<seq<string>, TagError>
  {
    match ValidateConditions(conditions)
    case Err(e) => Err(Conditions(e))
    case Ok(_) =>
      if crypto.equalFold(owner, agent) then Err(OwnerIsAgent)
      else Ok(["auth", owner, conditions, sign(Preimage(agent, conditions))])
  }

  function ValidateAuthTag(tag: seq<string>, agent: string, crypto: Crypto): Result<(), TagError> {
    if |tag| != 4 then Err(ElementCount(|tag|))
    else if tag[0] != "auth" then Err(WrongName(tag[0]))
    else if crypto.equalFold(tag[1], agent) then Err(OwnerIsAgent)
    else
      match ValidateConditions(tag[2])
      case Err(e) => Err(Conditions(e))
      case Ok(_) =>
        if !crypto.validPubkey(tag[1]) then Err(InvalidPubkey)
        else if !crypto.validSignature(tag[3]) then Err(InvalidSignature)
        else if !crypto.verifies(tag[1], Preimage(agent, tag[2]), tag[3]) then Err(InvalidSignature)
        else Ok(())
  }

  /** A tag is accepted exactly when it has the four elements, the name, an owner who is not the agent,
      conditions in the grammar, a valid key, a well-formed signature, and that signature verifies over
      the text that names the agent and the conditions as they stand. */
  lemma TagAcceptedIff(tag: seq<string>, agent: string, crypto: Crypto)
    ensures ValidateAuthTag(tag, agent, crypto) == Ok(()) <==>
      && |tag| == 4 && tag[0] == "auth"
      && !crypto.equalFold(tag[1], agent)
      && (exists cs :: AllInRange(cs) && tag[2] == Print(cs))
      && crypto.validPubkey(tag[1]) && crypto.validSignature(tag[3])
      && crypto.verifies(tag[1], "nostr:agent-auth:" + agent + ":" + tag[2], tag[3])
    // A refused one is refused for the first of these that fails.
    ensures |tag| != 4 ==> ValidateAuthTag(tag, agent, crypto) == Err(ElementCount(|tag|))
    ensures |tag| == 4 && tag[0] != "auth" ==> ValidateAuthTag(tag, agent, crypto) == Err(WrongName(tag[0]))
    ensures |tag| == 4 && tag[0] == "auth" && crypto.equalFold(tag[1], agent) ==>
              ValidateAuthTag(tag, agent, crypto) == Err(OwnerIsAgent)
    ensures |tag| == 4 && tag[0] == "auth" && !crypto.equalFold(tag[1], agent) ==>
              var refused := ValidateAuthTag(tag, agent, crypto);
              var grammatical := exists cs :: AllInRange(cs) && tag[2] == Print(cs);
              && (refused.Err? && refused.error.Conditions? <==> !grammatical)
              && (refused == Err(InvalidPubkey) <==> grammatical && !crypto.validPubkey(tag[1]))
              && (refused.Err? ==> refused.error.Conditions? || refused.error in {InvalidPubkey, InvalidSignature})
  {
    if |tag| == 4 {
      GrammarIff(tag[2]);
    }
  }

  /** Signing refuses exactly conditions outside the grammar and an agent who is the owner, and what it
      builds then is accepted whenever its key and signature are good. */
  lemma SignedTagAccepted(owner: string, agent: string, conditions: string, sign: string -> string, crypto: Crypto)
    ensures var signed := SignAuthTag(owner, agent, conditions, sign, crypto);
            var text := "nostr:agent-auth:" + agent + ":" + conditions;
      && (signed.Ok? <==> (exists cs :: AllInRange(cs) && conditions == Print(cs)) && !crypto.equalFold(owner, agent))
      && (signed.Ok? ==>
            && signed.value == ["auth", owner, conditions, sign(text)]
            && (ValidateAuthTag(signed.value, agent, crypto) == Ok(()) <==>
                  && crypto.validPubkey(owner) && crypto.validSignature(sign(text))
                  && crypto.verifies(owner, text, sign(text))))
  {
    GrammarIff(conditions);
    var signed := SignAuthTag(owner, agent, conditions, sign, crypto);
    if signed.Ok? {
      TagAcceptedIff(signed.value, agent, crypto);
    }
  }

  lemma GrammarIff(s: string)
    ensures ValidateConditions(s).Ok? <==> exists cs :: AllInRange(cs) && s == Print(cs)
  {
    if ValidateConditions(s).Ok? {
      AcceptedIsPrinted(s);
    } else if cs :| AllInRange(cs) && s == Print(cs) {
      PrintedIsAccepted(cs);
    }
  }

  /** The two callers that hash a preimage. */
  datatype Request = Signing(owner: string, agent: string, conditions: string)
    | Validating(tag: seq<string>, agent: string)

  /** The request passes every check before its hash. */
  predicate ReachesHash(r: Request, crypto: Crypto) {
    match r
    case Signing(owner, agent, conditions) => SignAuthTag(owner, agent, conditions, preimage => "", crypto).Ok?
    case Validating(tag, agent) =>
      ValidateAuthTag(tag, agent, crypto.(verifies := (owner, preimage, signature) => true)) == Ok(())
  }

  function ConditionsOf(r: Request): string
    requires r.Validating? ==> |r.tag| == 4
  {
    if r.Signing? then r.conditions else r.tag[2]
  }

  /** Requests that reach the hash never share a preimage, for any pubkey strings and any mix of
      signing and validating: both callers check the conditions first. */
  lemma HashedRequestsNeverCollide(r: Request, q: Request, crypto: Crypto)
    requires ReachesHash(r, crypto) && ReachesHash(q, crypto)
    requires (r.Validating? ==> |r.tag| == 4) && (q.Validating? ==> |q.tag| == 4)
    requires Preimage(r.agent, ConditionsOf(r)) == Preimage(q.agent, ConditionsOf(q))
    ensures r.agent == q.agent && ConditionsOf(r) == ConditionsOf(q)
  {
    PreimageInjective(r.agent, ConditionsOf(r), q.agent, ConditionsOf(q));
  }

  predicate NamedAuth(t: seq<string>) {
    |t| > 0 && t[0] == "auth"
  }

  /** The only "auth" tag; none when there is none or more than one. */
  method FindAuthTag(tags: seq<seq<string>>) returns (res: Option<seq<string>>)
    ensures res.Some? <==> exists i :: 0 <= i < |tags| && NamedAuth(tags[i])
                                    && forall j | 0 <= j < |tags| && NamedAuth(tags[j]) :: j == i
    ensures res.Some? ==> NamedAuth(res.value) && res.value in tags
  {
    var found: seq<string> := [];
    var count := 0;
    ghost var first, last := 0, 0;
    for k := 0 to |tags|
      invariant 0 <= count
      invariant count == 0 ==> forall j | 0 <= j < k :: !NamedAuth(tags[j])
      invariant count > 0 ==> 0 <= first <= last < k &&
                                NamedAuth(tags[first]) && NamedAuth(tags[last]) && found == tags[last]
      invariant count == 1 ==> first == last && forall j | 0 <= j < k && NamedAuth(tags[j]) :: j == first
      invariant count > 1 ==> first < last
    {
      var t := tags[k];
      if |t| > 0 && t[0] == "auth" {
        if count == 0 {
          first := k;
        }
        last := k;
        count := count + 1;
        found := t;
      }
    }
    if count != 1 {
      return None;
    }
    return Some(found);
  }

  // ---------------------------------------------------------------- the stored secret

  datatype Lookup = Found(raw: string) | NotFound | ProviderFailed

  datatype LoadError = ResolveFailed | FieldCount(count: nat) | InvalidTag(error: TagError)

  datatype Load = Loaded(tag: seq<string>) | Absent | LoadFailed(error: LoadError)

  function LoadAuthTag(lookup: Lookup, agent: string, crypto: Crypto): Load {
    match lookup
    case NotFound => Absent
    case ProviderFailed => LoadFailed(ResolveFailed)
    case Found(raw) =>
      var trimmed := TrimSpace(raw);
      if trimmed == "" then Absent
      else
        var parts := Split(trimmed, '|');
        if |parts| != 3 then LoadFailed(FieldCount(|parts|))
        else
          var tag := ["auth", parts[0], parts[1], parts[2]];
          match ValidateAuthTag(tag, agent, crypto)
          case Err(e) => LoadFailed(InvalidTag(e))
          case Ok(_) => Loaded(tag)
  }

  /** The stored form: owner, conditions and signature joined with '|'. */
  function Record(owner: string, conditions: string, signature: string): string {
    Join([owner, conditions, signature], '|')
  }

  predicate IsHex(s: string) {
    forall i | 0 <= i < |s| :: IsDigit(s[i]) || 'a' <= s[i] <= 'f' || 'A' <= s[i] <= 'F'
  }

  lemma RecordText(owner: string, conditions: string, signature: string)
    ensures Record(owner, conditions, signature) == owner + "|" + conditions + "|" + signature
  {
    assert [owner, conditions, signature][1..] == [conditions, signature];
    assert [conditions, signature][1..] == [signature];
    assert Join([signature], '|') == signature;
    assert Join([conditions, signature], '|') == conditions + ['|'] + signature;
  }

  lemma TrimKeeps(s: string)
    requires s != "" ==> !IsSpace(s[0]) && !IsSpace(s[|s| - 1])
    ensures TrimSpace(s) == s
  {
  }

  /** The three fields come back from their record, for every hex owner, hex signature and
      accepted conditions, the empty ones included. */
  lemma RecordSplitsBack(owner: string, conditions: string, signature: string)
    requires IsHex(owner) && IsHex(signature) && ValidateConditions(conditions).Ok?
    ensures Split(TrimSpace(Record(owner, conditions, signature)), '|') == [owner, conditions, signature]
  {
    var s := Record(owner, conditions, signature);
    RecordText(owner, conditions, signature);
    assert s[0] == if owner == "" then '|' else owner[0];
    assert s[|s| - 1] == if signature == "" then '|' else signature[|signature| - 1];
    TrimKeeps(s);
    AcceptedChars(conditions);
    SplitJoin([owner, conditions, signature], '|');
  }

  /** A signed tag survives being stored and loaded: what SignAuthTag built is what LoadAuthTag
      returns, when the signature verifies. */
  lemma SignedTagLoads(owner: string, agent: string, conditions: string, sign: string -> string, crypto: Crypto)
    requires IsHex(owner) && SignAuthTag(owner, agent, conditions, sign, crypto).Ok?
    requires var signature := sign(Preimage(agent, conditions));
             && IsHex(signature) && crypto.validPubkey(owner) && crypto.validSignature(signature)
             && crypto.verifies(owner, Preimage(agent, conditions), signature)
    ensures var tag := SignAuthTag(owner, agent, conditions, sign, crypto).value;
            && |tag| == 4
            && LoadAuthTag(Found(Record(tag[1], tag[2], tag[3])), agent, crypto) == Loaded(tag)
  {
    var signature := sign(Preimage(agent, conditions));
    RecordSplitsBack(owner, conditions, signature);
    RecordText(owner, conditions, signature);
    assert |Split("", '|')| == 1;
  }

  /** A secret loads as a tag exactly when the tag is accepted and the secret, trimmed, is its owner,
      conditions and signature with a '|' between them; a blank or missing secret is no tag at all. */
  lemma LoadedIff(lookup: Lookup, agent: string, crypto: Crypto, tag: seq<string>)
    ensures LoadAuthTag(lookup, agent, crypto) == Loaded(tag) <==>
      && lookup.Found? && ValidateAuthTag(tag, agent, crypto) == Ok(())
      && '|' !in tag[1] && '|' !in tag[2] && '|' !in tag[3]
      && TrimSpace(lookup.raw) == tag[1] + "|" + tag[2] + "|" + tag[3]
    ensures LoadAuthTag(lookup, agent, crypto) == Absent <==>
              lookup.NotFound? || (lookup.Found? && TrimSpace(lookup.raw) == "")
  {
    if lookup.Found? && |tag| == 4 {
      ThreeFieldsIff(TrimSpace(lookup.raw), tag[1], tag[2], tag[3]);
      assert tag == [tag[0], tag[1], tag[2], tag[3]];
    }
  }

  lemma ThreeFieldsIff(s: string, a: string, b: string, c: string)
    ensures Split(s, '|') == [a, b, c] <==>
              '|' !in a && '|' !in b && '|' !in c && s == a + "|" + b + "|" + c
  {
    RecordText(a, b, c);
    if Split(s, '|') == [a, b, c] {
      JoinSplit(s, '|');
      assert AllWithout([a, b, c], '|');
      assert [a, b, c][0] == a && [a, b, c][1] == b && [a, b, c][2] == c;
    }
    if '|' !in a && '|' !in b && '|' !in c {
      SplitJoin([a, b, c], '|');
    }
  }

  /** A loaded tag is a valid four-element auth tag, and storing it again gives the trimmed secret. */
  lemma LoadedTagIsTheSecret(raw: string, agent: string, crypto: Crypto)
    requires LoadAuthTag(Found(raw), agent, crypto).Loaded?
    ensures var tag := LoadAuthTag(Found(raw), agent, crypto).tag;
            && ValidateAuthTag(tag, agent, crypto) == Ok(()) && |tag| == 4 && tag[0] == "auth"
            && Record(tag[1], tag[2], tag[3]) == TrimSpace(raw)
  {
    JoinSplit(TrimSpace(raw), '|');
    var parts := Split(TrimSpace(raw), '|');
    assert parts == [parts[0], parts[1], parts[2]];
  }
}
