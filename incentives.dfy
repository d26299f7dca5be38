/**
 * The incentives contract's administration: a stored config naming the owner
 * and the MARS denom, written at instantiation; the owner may replace fields of
 * it and may have the contract send an arbitrary message on its behalf.
 */
module Incentives {
  import opened Results

  type Addr = string

  datatype Config = Config(owner: Addr, marsDenom: string)

  datatype InstantiateMsg = InstantiateMsg(owner: Addr, marsDenom: string)

  /** A chain message the contract forwards; its contents are not interpreted. */
  datatype CosmosMsg = CosmosMsg(encoded: seq<bv8>)

  /** A sub-message made by `SubMsg::new`: sent without asking for a reply. */
  datatype SubMsg = SubMsg(msg: CosmosMsg)

  datatype Attribute = Attribute(key: string, value: string)

  datatype Response = Response(messages: seq<SubMsg>, attributes: seq<Attribute>)

  datatype ExecuteMsg =
    | UpdateConfig(owner: Option<Addr>, marsDenom: Option<string>)
    | ExecuteCosmosMsg(msg: CosmosMsg)

  datatype ContractError = Unauthorized

  /**
   * The config after an update: each field given replaces the stored one, each
   * field left out keeps it.
   */
  function MergeConfig(config: Config, owner: Option<Addr>, marsDenom: Option<string>): (c: Config)
    ensures owner.Some? ==> c.owner == owner.value
    ensures owner.None? ==> c.owner == config.owner
    ensures marsDenom.Some? ==> c.marsDenom == marsDenom.value
    ensures marsDenom.None? ==> c.marsDenom == config.marsDenom
  {
    Config(owner.UnwrapOr(config.owner), marsDenom.UnwrapOr(config.marsDenom))
  }

  /**
   * An update merges into the config field by field: applying a second update
   * after a first is the same as one update where the second's given fields win.
   */
  lemma MergeConfigComposes(config: Config, o1: Option<Addr>, m1: Option<string>, o2: Option<Addr>, m2: Option<string>)
    ensures MergeConfig(MergeConfig(config, o1, m1), o2, m2)
            == MergeConfig(config, if o2.Some? then o2 else o1, if m2.Some? then m2 else m1)
  {
  }

  class Incentives {
    var config: Config

    constructor (config: Config)
      ensures this.config == config
    {
      this.config := config;
    }

    /** Creates the contract with exactly the given config; nothing is sent. */
    static method Instantiate(msg: InstantiateMsg) returns (contract: Incentives, res: Response)
      ensures fresh(contract)
      ensures contract.config == Config(msg.owner, msg.marsDenom)
      ensures res.messages == []
    {
      contract := new Incentives(Config(msg.owner, msg.marsDenom));
      res := Response([], []);
    }

    /** The contract's entry point for executed messages. */
    method Execute(sender: Addr, msg: ExecuteMsg) returns (r: Result<Response, ContractError>)
      modifies this
      ensures msg.ExecuteCosmosMsg? ==> config == old(config)
      ensures sender != old(config.owner) ==> r == Err(Unauthorized) && config == old(config)
      ensures sender == old(config.owner) ==>
                && r.Ok?
                && (msg.UpdateConfig? ==>
                      r.value.messages == [] && config == MergeConfig(old(config), msg.owner, msg.marsDenom))
                && (msg.ExecuteCosmosMsg? ==>
                      r.value == Response([SubMsg(msg.msg)], [Attribute("action", "outposts/incentives/execute_cosmos_msg")]))
    {
      match msg
      case UpdateConfig(owner, marsDenom) => r := UpdateConfig(sender, owner, marsDenom);
      case ExecuteCosmosMsg(m) => r := ExecuteCosmosMsg(sender, m);
    }

    /**
     * Owner only: replaces the config fields that are given and keeps the
     * others; sends no message.
     */
    method UpdateConfig(sender: Addr, owner: Option<Addr>, marsDenom: Option<string>)
      returns (r: Result<Response, ContractError>)
      modifies this
      ensures sender != old(config.owner) ==> r == Err(Unauthorized) && config == old(config)
      ensures sender == old(config.owner) ==>
                && r.Ok? && r.value.messages == []
                && config == MergeConfig(old(config), owner, marsDenom)
    {
      if sender != config.owner {
        return Err(Unauthorized);
      }
      config := MergeConfig(config, owner, marsDenom);
      return Ok(Response([], [Attribute("action", "outposts/incentives/update_config")]));
    }

    /**
     * Owner only: forwards `msg` unchanged as the response's one sub-message,
     * tagged with the action attribute; the config is left as it is.
     */
    method ExecuteCosmosMsg(sender: Addr, msg: CosmosMsg) returns (r: Result<Response, ContractError>)
      ensures sender != config.owner ==> r == Err(Unauthorized)
      ensures sender == config.owner ==>
                r == Ok(Response([SubMsg(msg)], [Attribute("action", "outposts/incentives/execute_cosmos_msg")]))
    {
      if sender != config.owner {
        return Err(Unauthorized);
      }
      return Ok(Response([SubMsg(msg)], [Attribute("action", "outposts/incentives/execute_cosmos_msg")]));
    }
  }
}
