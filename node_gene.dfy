/**
 * A NEAT node gene: the type of a node (input, hidden or output) and the
 * prototype neuron expressed from it. Mutation perturbs the bias of a biased
 * update rule by a random amount and clamps it into [-maxBias, maxBias].
 */
module Neat {

  datatype NodeType = Input | Hidden | Output

  /**
   * The update rule of a neuron. Linear and other biased rules carry a bias
   * (they are BiasedUpdateRules); the others do not.
   */
  datatype UpdateRule =
    | Linear(bias: real)
    | OtherBiased(name: string, bias: real)
    | Unbiased(name: string)
  {
    predicate IsBiased()
    {
      Linear? || OtherBiased?
    }
  }

  /** A freshly constructed LinearRule. */
  const DefaultRule: UpdateRule := Linear(0.0)

  class Neuron {
    var rule: UpdateRule

    constructor ()
      ensures rule == DefaultRule
    {
      rule := DefaultRule;
    }

    method DeepCopy() returns (copy: Neuron)
      ensures fresh(copy) && copy.rule == rule
    {
      copy := new Neuron();
      copy.rule := rule;
    }
  }

  /** The genome-wide limits mutation reads. */
  class Configuration {
    var nodeMaxBiasMutation: real
    var nodeMaxBias: real

    constructor (nodeMaxBiasMutation: real, nodeMaxBias: real)
      ensures this.nodeMaxBiasMutation == nodeMaxBiasMutation && this.nodeMaxBias == nodeMaxBias
    {
      this.nodeMaxBiasMutation := nodeMaxBiasMutation;
      this.nodeMaxBias := nodeMaxBias;
    }
  }

  /**
   * The two clamps of mutate, in their order: first up to -maxBias, then down
   * to maxBias. With a negative maxBias the second one wins.
   */
  function Clamp(x: real, maxBias: real): (r: real)
    ensures 0.0 <= maxBias ==> -maxBias <= r <= maxBias
    ensures -maxBias <= x <= maxBias ==> r == x
    ensures maxBias < 0.0 ==> r == maxBias
  {
    var raised := if x < -maxBias then -maxBias else x;
    if raised > maxBias then maxBias else raised
  }

  /** Clamping is idempotent and only ever moves a value towards the range. */
  lemma ClampIdempotent(x: real, maxBias: real)
    requires 0.0 <= maxBias
    ensures Clamp(Clamp(x, maxBias), maxBias) == Clamp(x, maxBias)
    ensures x < -maxBias ==> Clamp(x, maxBias) == -maxBias
    ensures x > maxBias ==> Clamp(x, maxBias) == maxBias
  {
  }

  /** A bias already in range moves by at most the drawn delta. */
  lemma ClampMovesAtMostDelta(bias: real, d: real, maxBias: real, maxMutation: real)
    requires -maxBias <= bias <= maxBias
    requires -maxMutation <= d <= maxMutation
    ensures -maxMutation <= Clamp(bias + d, maxBias) - bias <= maxMutation
  {
  }

  class NodeGene {
    var nodeType: NodeType
    var prototype: Neuron
    var configuration: Configuration?
    /** Inherited from Gene: whether mutate may change this gene. */
    var mutable: bool

    /** A hidden node with a fresh prototype and no configuration yet. */
    constructor ()
      ensures nodeType == Hidden && fresh(prototype) && prototype.rule == DefaultRule
      ensures configuration == null && mutable
    {
      nodeType := Hidden;
      prototype := new Neuron();
      configuration := null;
      mutable := true;
    }

    constructor OfType(t: NodeType)
      ensures nodeType == t && fresh(prototype) && prototype.rule == DefaultRule
      ensures configuration == null && mutable
    {
      nodeType := t;
      prototype := new Neuron();
      configuration := null;
      mutable := true;
    }

    method SetConfiguration(configuration: Configuration?)
      modifies this`configuration
      ensures this.configuration == configuration
    {
      this.configuration := configuration;
    }

    /**
     * Perturbs the prototype's bias by the draw `d` and clamps it. `ok` is
     * false when a biased rule meets a missing configuration, where the source
     * dereferences null before anything is written.
     */
    method Mutate(d: real) returns (ok: bool)
      modifies prototype`rule
      ensures ok <==> !(mutable && old(prototype.rule).IsBiased() && configuration == null)
      ensures !mutable || !old(prototype.rule).IsBiased() || !ok ==> prototype.rule == old(prototype.rule)
      ensures mutable && old(prototype.rule).IsBiased() && ok ==>
        prototype.rule == old(prototype.rule).(bias := Clamp(old(prototype.rule).bias + d, configuration.nodeMaxBias))
      ensures mutable && old(prototype.rule).IsBiased() && ok && configuration.nodeMaxBias >= 0.0 ==>
        -configuration.nodeMaxBias <= prototype.rule.bias <= configuration.nodeMaxBias
    {
      ok := true;
      if mutable {
        var rule := prototype.rule;
        if rule.IsBiased() {
          if configuration == null {
            ok := false;
            return;
          }
          var newBias := rule.bias + d;
          if newBias < -configuration.nodeMaxBias {
            newBias := -configuration.nodeMaxBias;
          }
          if newBias > configuration.nodeMaxBias {
            newBias := configuration.nodeMaxBias;
          }
          prototype.rule := rule.(bias := newBias);
        }
      }
    }

    /** Records the type; every non-hidden type gets a fresh linear rule. */
    method SetType(t: NodeType)
      modifies this`nodeType, prototype`rule
      ensures nodeType == t
      ensures prototype.rule == if t != Hidden then DefaultRule else old(prototype.rule)
    {
      nodeType := t;
      if t != Hidden {
        prototype.rule := DefaultRule;
      }
    }

    /**
     * A new gene of the same type sharing this gene's configuration, with its
     * own deep copy of the prototype. Mutability is not copied: the copy is
     * built by the default constructor.
     */
    method Copy() returns (copy: NodeGene)
      ensures fresh(copy) && fresh(copy.prototype)
      ensures copy.nodeType == nodeType && copy.prototype.rule == prototype.rule
      ensures copy.configuration == configuration && copy.mutable
    {
      copy := new NodeGene();
      copy.nodeType := nodeType;
      copy.prototype := prototype.DeepCopy();
      copy.configuration := configuration;
    }
  }
}
