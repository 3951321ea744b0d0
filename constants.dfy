/** The prompt strings shared by the provider adapters (constants.py). */
module Constants {

  /** System prompt sent with every ranked-list request. */
  const RankedListSysPrompt: string :=
    "You are an assistant that returns a JSON object where the keys are the brand names and the values are the order you return them. Example output: {\"foo\": 1, \"bar\": 2}"

  /** System prompt sent with a choice between two options. */
  const ChoiceSysPrompt: string :=
    "In one word answer the following question, strictly with the choice between two options"
}
