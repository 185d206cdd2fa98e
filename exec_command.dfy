/**
 * `ExecCommand` (testcontainers/src/core/image.rs): a command to run in a started
 * container, the condition on its own output that marks it done, and the conditions the
 * container must meet again afterwards.
 */
module ExecCommands {
  import opened WaitConditions

  datatype ExecCommand = ExecCommand(
    cmd: seq<string>,
    cmdReadyCondition: WaitFor,
    containerReadyConditions: seq<WaitFor>)

  /** `ExecCommand::new(cmd)`: no condition on the output, none on the container. */
  function New(cmd: seq<string>): (c: ExecCommand)
    ensures c.cmd == cmd
    ensures c.cmdReadyCondition == Nothing
    ensures c.containerReadyConditions == []
  {
    ExecCommand(cmd, Nothing, [])
  }

  /** `ExecCommand::default()`: the empty command. */
  function Default(): (c: ExecCommand)
    ensures c.cmd == [] && c.cmdReadyCondition == Nothing && c.containerReadyConditions == []
  {
    New([])
  }

  /** `with_container_ready_conditions`: replaces that list and nothing else. */
  function WithContainerReadyConditions(c: ExecCommand, readyConditions: seq<WaitFor>): (r: ExecCommand)
    ensures r.containerReadyConditions == readyConditions
    ensures r.cmd == c.cmd && r.cmdReadyCondition == c.cmdReadyCondition
  {
    c.(containerReadyConditions := readyConditions)
  }

  /** `with_cmd_ready_condition`: replaces the command's own condition and nothing else. */
  function WithCmdReadyCondition(c: ExecCommand, readyCondition: WaitFor): (r: ExecCommand)
    ensures r.cmdReadyCondition == readyCondition
    ensures r.cmd == c.cmd && r.containerReadyConditions == c.containerReadyConditions
  {
    c.(cmdReadyCondition := readyCondition)
  }

  /** The two builders touch different fields, so their order does not matter, and the later call of either wins. */
  lemma BuildersIndependent(c: ExecCommand, conds: seq<WaitFor>, conds': seq<WaitFor>, w: WaitFor, w': WaitFor)
    ensures WithCmdReadyCondition(WithContainerReadyConditions(c, conds), w)
         == WithContainerReadyConditions(WithCmdReadyCondition(c, w), conds)
    ensures WithCmdReadyCondition(WithCmdReadyCondition(c, w), w') == WithCmdReadyCondition(c, w')
    ensures WithContainerReadyConditions(WithContainerReadyConditions(c, conds), conds')
         == WithContainerReadyConditions(c, conds')
  {
  }
}
