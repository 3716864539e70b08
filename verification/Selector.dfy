/**
 * The interactive front end: one prompt, two numbered choices, and an
 * immediate exit with a fixed message on anything else.
 */
module Selector {

  const UnknownTypeMessage := "Unknown server type."

  /** What the answer to the prompt leads to. */
  datatype Flow = Vanilla | Forge | Exit(message: string)

  /**
   * The dispatch at the end of server_builder.py: "1" runs the vanilla flow,
   * "2" the Forge flow, and every other answer, including "1 " or " 2",
   * exits with "Unknown server type.".
   */
  function SelectFlow(answer: string): (flow: Flow)
    ensures flow == Vanilla <==> answer == "1"
    ensures flow == Forge <==> answer == "2"
    ensures flow.Exit? <==> answer != "1" && answer != "2"
    ensures flow.Exit? ==> flow.message == UnknownTypeMessage
  {
    if answer == "1" then Vanilla
    else if answer == "2" then Forge
    else Exit(UnknownTypeMessage)
  }
}
