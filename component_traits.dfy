/**
 * The closed set of component traits. A trait is identified by its name: every
 * operation of the source compares traits by `name`, never by object identity.
 */
module ComponentTraits {

  /**
   * `OutOfScope`, `AzureResource` and `MyCodeRunsHere` are the three traits declared in
   * src/ComponentTraits.ts; `ActsAsAClient` and `ActsAsAServer` are read by the topic
   * generator but declared nowhere, so their names below are this model's choice and they have no description.
   */
  datatype Trait = OutOfScope | AzureResource | MyCodeRunsHere | ActsAsAClient | ActsAsAServer
  {
    function Name(): string {
      match this
      case OutOfScope => "Out of Scope"
      case AzureResource => "Azure Resource"
      case MyCodeRunsHere => "My Code Runs Here"
      case ActsAsAClient => "Acts As A Client"
      case ActsAsAServer => "Acts As A Server"
    }

    function Description(): string {
      match this
      case OutOfScope => "My system interacts with this component, but we are not responsible for securing it."
      case AzureResource => "This component either is an Azure Resource (e.g. a CosmosDB database) or is built on one (e.g. App Service)."
      case MyCodeRunsHere => "Code we wrote runs on this resource."
      case ActsAsAClient => ""
      case ActsAsAServer => ""
    }
  }

  /** `AllTraits`: the traits a user can pick, in declaration order. */
  const AllTraits: seq<Trait> := [OutOfScope, AzureResource, MyCodeRunsHere]

  /** Comparing traits by name is comparing the traits themselves. */
  lemma NameInjective(a: Trait, b: Trait)
    ensures a.Name() == b.Name() <==> a == b
  {
  }
}
