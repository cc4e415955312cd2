/** yo/ssh.py: the argument list given to ssh. Running ssh itself is not
    modelled. */
module Ssh {
  import opened Base
  import opened Text
  import opened TaskDef

  /** The options yo always passes: no host-key checking or recording, quiet
      logging, and keep-alives. */
  const SSH_OPTIONS: seq<string> := [
    "-oCheckHostIP=no",
    "-oStrictHostKeyChecking=no",
    "-oUpdateHostKeys=no",
    "-oUserKnownHostsFile=/dev/null",
    "-oLogLevel=ERROR",
    "-oServerAliveInterval=60",
    "-oTCPKeepAlive=yes"
  ]

  /** The refusal of a configured `-i`; the missing spaces between the
      joined pieces are part of the message. */
  const IdentityConfigured :=
    "you have -i configured in ssh_args, but yo now automatically selects the -i value corresponding to"
    + "your configured SSH key. Please remove it from your" + "configuration."

  /** The configuration values ssh_args reads. */
  datatype SshConfig = SshConfig(sshArgs: Option<string>, privateKey: Option<string>, interactiveArgs: Option<string>)

  /** `value or ""` */
  function OrEmpty(s: Option<string>): string {
    if s.Some? then s.value else ""
  }

  /** `-i <key>` when a private key is configured. */
  function KeyArgs(config: SshConfig): (r: seq<string>)
    ensures |r| == 0 <==> config.privateKey.None?
  {
    if config.privateKey.Some? then ["-i", config.privateKey.value] else []
  }

  /** ssh_args: the fixed options, the configured ssh_args words (which must
      not hold `-i`), the key, and for an interactive session the
      configured interactive words. shlex.split is the parameter tokenize. */
  function SshArgs(config: SshConfig, interactive: bool, tokenize: Tokenizer): (r: Result<seq<string>>)
    ensures tokenize(OrEmpty(config.sshArgs)).Err? ==> r == Err(tokenize(OrEmpty(config.sshArgs)).exc)
    ensures tokenize(OrEmpty(config.sshArgs)).Ok? && "-i" in tokenize(OrEmpty(config.sshArgs)).value ==>
      r == Err(YoExc(IdentityConfigured))
    ensures r.Ok? ==> tokenize(OrEmpty(config.sshArgs)).Ok? && "-i" !in tokenize(OrEmpty(config.sshArgs)).value
    ensures r.Ok? ==>
      var words := tokenize(OrEmpty(config.sshArgs)).value;
      && |r.value| >= |SSH_OPTIONS| + |words| + |KeyArgs(config)|
      && r.value[..|SSH_OPTIONS|] == SSH_OPTIONS
      && r.value[|SSH_OPTIONS|..|SSH_OPTIONS| + |words|] == words
      && r.value[|SSH_OPTIONS| + |words|..|SSH_OPTIONS| + |words| + |KeyArgs(config)|] == KeyArgs(config)
    ensures r.Ok? && !interactive ==> |r.value| == |SSH_OPTIONS| + |tokenize(OrEmpty(config.sshArgs)).value| + |KeyArgs(config)|
    ensures r.Ok? && interactive ==> tokenize(OrEmpty(config.interactiveArgs)).Ok?
  {
    var words :- tokenize(OrEmpty(config.sshArgs));
    var cmd := SSH_OPTIONS + words;
    if "-i" in cmd then Err(YoExc(IdentityConfigured))
    else
      var keyed := cmd + KeyArgs(config);
      if interactive then
        var extra :- tokenize(OrEmpty(config.interactiveArgs));
        assert (keyed + extra)[..|keyed|] == keyed;
        Ok(keyed + extra)
      else Ok(keyed)
  }

  /** The words ssh_args sees first carry no `-i`, so the first `-i` of an
      accepted argument list is the configured key's, and with no key
      configured `-i` appears only among the interactive words. */
  lemma {:induction false} SshArgsIdentity(config: SshConfig, interactive: bool, tokenize: Tokenizer)
    requires SshArgs(config, interactive, tokenize).Ok?
    ensures var r := SshArgs(config, interactive, tokenize).value;
      var n := |SSH_OPTIONS| + |tokenize(OrEmpty(config.sshArgs)).value|;
      && (config.privateKey.Some? ==> "-i" in r && IndexOf(r, "-i") == n && r[n + 1] == config.privateKey.value)
      && (config.privateKey.None? && !interactive ==> "-i" !in r)
  {
    var r := SshArgs(config, interactive, tokenize).value;
    var words := tokenize(OrEmpty(config.sshArgs)).value;
    var n := |SSH_OPTIONS| + |words|;
    assert "-i" !in r[..n] by {
      assert r[..n] == SSH_OPTIONS + words by {
        assert r[..n][..|SSH_OPTIONS|] == r[..|SSH_OPTIONS|];
        assert r[..n][|SSH_OPTIONS|..] == r[|SSH_OPTIONS|..n];
      }
    }
    if config.privateKey.Some? {
      assert r[n..n + 2] == ["-i", config.privateKey.value];
      assert r[n] == "-i";
      IndexOfAt(r, "-i", n);
    } else if !interactive {
      assert r == r[..n];
    }
  }

  /** ssh_cmd: `ssh`, the ssh_args (interactive exactly when there are
      commands to run), the extra arguments, the target, then the commands. */
  function SshCmd(config: SshConfig, target: string, extraArgs: seq<string>, cmds: seq<string>,
                  tokenize: Tokenizer): (r: Result<seq<string>>)
    ensures SshArgs(config, |cmds| > 0, tokenize).Err? ==> r == Err(SshArgs(config, |cmds| > 0, tokenize).exc)
    ensures r.Ok? ==> SshArgs(config, |cmds| > 0, tokenize).Ok?
    ensures r.Ok? ==>
      var args := SshArgs(config, |cmds| > 0, tokenize).value;
      var t := 1 + |args| + |extraArgs|;
      && |r.value| == t + 1 + |cmds|
      && r.value[0] == "ssh"
      && r.value[1..1 + |args|] == args
      && r.value[1 + |args|..t] == extraArgs
      && r.value[t] == target
      && r.value[t + 1..] == cmds
  {
    var args :- SshArgs(config, |cmds| > 0, tokenize);
    var pre := ["ssh"] + args;
    var mid := pre + extraArgs;
    var cmd := mid + [target] + cmds;
    assert cmd[..|mid|] == mid && mid[..|pre|] == pre;
    assert cmd[1..1 + |args|] == pre[1..];
    assert cmd[1 + |args|..|mid|] == mid[|pre|..];
    assert cmd[|mid| + 1..] == cmds;
    Ok(cmd)
  }
}
