/**
 * The reasoning agent that the HTTP layer drives, seen only through its
 * interface: one shared instance with a mutable `memory` field and a `chat`
 * call whose answer the model cannot compute. What the agent does inside
 * (tool retrieval, the reasoning loop, calls to the hosted model) is outside
 * this model.
 */
module Agent {
  import opened Wrappers

  /** The token budget every session memory is created with. */
  const TOKEN_LIMIT: nat := 30000

  /**
   * A bounded conversational memory. Its contents belong to the agent
   * library; the model keeps only the object's identity and its budget.
   */
  class Memory {
    const tokenLimit: nat

    constructor FromDefaults(tokenLimit: nat)
      ensures this.tokenLimit == tokenLimit
    {
      this.tokenLimit := tokenLimit;
    }
  }

  /**
   * The object `agent.chat` returns: `response` is the value of its
   * `response` attribute when it has one, `rendered` is what `str()`
   * makes of the whole object.
   */
  datatype AgentResponse = AgentResponse(response: Option<string>, rendered: string)

  /** How one `agent.chat` call ends: it returns a response or it raises. */
  datatype Outcome = Replied(value: AgentResponse) | Raised(error: string)

  /** One call of `agent.chat`: the memory bound to the agent at that moment and the message. */
  datatype Invocation = Invocation(memory: Memory, message: string)

  /** The single agent instance the whole process shares. */
  class ReActAgent {
    var memory: Memory
    /** Every `chat` call so far, in order. */
    ghost var invocations: seq<Invocation>

    /** The agent as it is built at start-up, with a memory of its own attached. */
    constructor ()
      ensures fresh(memory) && memory.tokenLimit == TOKEN_LIMIT
      ensures invocations == []
    {
      memory := new Memory.FromDefaults(TOKEN_LIMIT);
      invocations := [];
    }

    /**
     * `agent.chat(message)`. The answer is decided by the language model and
     * the tools, so it is supplied as `outcome`; the call is recorded together
     * with the memory that is active when it is made.
     */
    method Chat(message: string, outcome: Outcome) returns (r: Outcome)
      modifies this`invocations
      ensures invocations == old(invocations) + [Invocation(memory, message)]
      ensures r == outcome
    {
      invocations := invocations + [Invocation(memory, message)];
      r := outcome;
    }
  }
}
