/**
 * generateSimulatedResponse in server.js: the canned answer the AI
 * generation endpoint returns in simulation mode, when no model provider
 * answered. A prompt that mentions code gets a worked Python example, any
 * other prompt a generic plan; both are framed by a heading naming the model
 * and a footer naming the platform.
 */
module SimulatedResponse {
  import opened Wrappers
  import opened Text

  // The two bodies, line by line, with the line breaks of the template literals.

  const CodeOpening: string := "Here's the implementation:\n"
  const CodeListing: string :=
    "\n"
    + "```python\n"
    + "def solution(data):\n"
    + "    \"\"\"\n"
    + "    Optimized solution using dynamic programming.\n"
    + "    Time: O(n), Space: O(n)\n"
    + "    \"\"\"\n"
    + "    if not data:\n"
    + "        return None\n"
    + "\n"
    + "    # Initialize DP table\n"
    + "    dp = [0] * len(data)\n"
    + "    dp[0] = data[0]\n"
    + "\n"
    + "    # Build solution bottom-up\n"
    + "    for i in range(1, len(data)):\n"
    + "        dp[i] = max(dp[i-1] + data[i], data[i])\n"
    + "\n"
    + "    return max(dp)\n"
    + "\n"
    + "# Example usage\n"
    + "result = solution([1, -2, 3, 4, -1, 2])\n"
    + "print(f\"Result: {result}\")\n"
    + "```\n"
    + "\n"
    + "This implementation handles edge cases and provides optimal performance."
  /** The body given to a prompt about code: a dynamic-programming example in Python. */
  const CodeBody: string := CodeOpening + CodeListing

  const GeneralOpening: string := "Based on your query, here's my analysis:\n"
  const GeneralPoints: string :=
    "\n"
    + "1. **Key Points**\n"
    + "   - The approach should prioritize efficiency\n"
    + "   - Consider scalability requirements\n"
    + "   - Ensure proper error handling\n"
    + "\n"
    + "2. **Recommendations**\n"
    + "   - Start with a minimal viable solution\n"
    + "   - Add comprehensive testing\n"
    + "   - Document the design decisions\n"
    + "\n"
    + "3. **Next Steps**\n"
    + "   - Review the implementation plan\n"
    + "   - Set up the development environment\n"
    + "   - Begin iterative development\n"
    + "\n"
    + "Let me know if you'd like me to elaborate on any aspect."
  /** The body given to any other prompt: key points, recommendations and next steps. */
  const GeneralBody: string := GeneralOpening + GeneralPoints

  const HeadingStart: string := "# Response from "
  const FooterMark: string := "*Generated by BlackRoad AI Platform*"
  const Footer: string := "\n\n---\n" + FooterMark

  /** The heading line naming the model, and the blank line after it. */
  function Heading(model: string): string {
    HeadingStart + model + "\n\n"
  }

  /** The lower-cased prompt mentions code, a function or implementing something. */
  predicate IsCodeRelated(prompt: string) {
    var p := Lower(prompt);
    Contains(p, "code") || Contains(p, "function") || Contains(p, "implement")
  }

  function BodyFor(prompt: string): string {
    if IsCodeRelated(prompt) then CodeBody else GeneralBody
  }

  /** A body between the heading for the model and the footer. */
  function Framed(model: string, body: string): string {
    Heading(model) + body + Footer
  }

  /**
   * The whole text returned for a prompt and a model name: the chosen body,
   * framed by the heading for the model and the footer.
   */
  function Response(prompt: string, model: string): (r: string)
    ensures Unframe(r, model) == Some(BodyFor(prompt))
  {
    UnframeFramed(model, BodyFor(prompt));
    Framed(model, BodyFor(prompt))
  }

  /**
   * Reads a response back: the text between the heading for the model and
   * the footer, or None when the text is not framed that way.
   */
  function Unframe(r: string, model: string): Option<string> {
    var h := Heading(model);
    if |h| + |Footer| <= |r| && r[..|h|] == h && r[|r| - |Footer|..] == Footer
    then Some(r[|h|..|r| - |Footer|])
    else None
  }

  // ---------------------------------------------------------------- properties

  /** Whether a prompt is about code does not depend on its letter case. */
  lemma IsCodeRelatedIgnoresCase(prompt: string)
    ensures IsCodeRelated(Lower(prompt)) == IsCodeRelated(prompt)
  {
    LowerIdempotent(prompt);
  }

  /** A prompt is about code exactly when one of the three words occurs in its lower-cased text. */
  lemma IsCodeRelatedIff(prompt: string)
    ensures IsCodeRelated(prompt) <==>
      exists i :: OccursAt(Lower(prompt), "code", i) || OccursAt(Lower(prompt), "function", i) || OccursAt(Lower(prompt), "implement", i)
  {
    ContainsIff(Lower(prompt), "code");
    ContainsIff(Lower(prompt), "function");
    ContainsIff(Lower(prompt), "implement");
  }

  lemma FirstOfAppend(a: string, b: string)
    requires |a| > 0
    ensures (a + b)[0] == a[0]
  {
  }

  /** The two bodies differ (already in their first character). */
  lemma BodiesDiffer()
    ensures CodeBody != GeneralBody
  {
    FirstOfAppend(CodeOpening, CodeListing);
    FirstOfAppend(GeneralOpening, GeneralPoints);
    assert CodeOpening[0] != GeneralOpening[0];
  }

  lemma UnframeParts(h: string, b: string, f: string, r: string)
    requires r == h + b + f
    ensures |h| + |f| <= |r| && r[..|h|] == h && r[|r| - |f|..] == f && r[|h|..|r| - |f|] == b
  {
  }

  /** Unframe recovers any framed body. */
  lemma UnframeFramed(model: string, body: string)
    ensures Unframe(Framed(model, body), model) == Some(body)
  {
    UnframeParts(Heading(model), body, Footer, Framed(model, body));
  }

  /** Any framed body is preceded by "# Response from " and the model, and followed by the platform footer. */
  lemma FramedMentions(model: string, body: string)
    ensures Contains(Framed(model, body), HeadingStart + model)
    ensures Contains(Framed(model, body), FooterMark)
  {
    var r := Framed(model, body);
    var mention := HeadingStart + model;
    var rest := "\n\n" + body + Footer;
    assert r == mention + rest;
    UnframeParts(mention, rest, [], r);
    assert OccursAt(r, mention, 0);
    ContainsIff(r, mention);
    var front := Heading(model) + body + "\n\n---\n";
    assert r == front + FooterMark;
    UnframeParts(front, FooterMark, [], r);
    assert OccursAt(r, FooterMark, |front|);
    ContainsIff(r, FooterMark);
  }

  /** The framed body is the code example exactly when the prompt is about code. */
  lemma CodeBodyIffCodeRelated(prompt: string, model: string)
    ensures Unframe(Response(prompt, model), model) == Some(CodeBody) <==> IsCodeRelated(prompt)
  {
    BodiesDiffer();
  }

  /** The response names the model after "# Response from " and carries the platform footer. */
  lemma ResponseMentions(prompt: string, model: string)
    ensures Contains(Response(prompt, model), HeadingStart + model)
    ensures Contains(Response(prompt, model), FooterMark)
  {
    FramedMentions(model, BodyFor(prompt));
  }
}
