# cfgViper configuration-source resolver

A Dafny model of the one piece of original logic in package `cfgViper`:
how the `--config` locator decides where viper reads its configuration from.

- With no `--config`, viper searches the default directories for `cfgName`.
- A locator that `url.Parse` rejects is a fatal error.
- A locator whose URL has an empty scheme is a local file. viper gets the
  flag's text exactly as written.
- A locator with a scheme is remote. `SetRemoteConfig` splits the scheme at
  its first `+` into a provider and a protocol. Only provider `etcd` is
  accepted, and it must have a protocol. It then builds the endpoint
  `protocol://host`, takes the URL path as the key, and takes the config type
  from the path's extension without its dot. A path without an extension is
  fatal.

Every `klog.Fatalf` becomes an `Error` value of the result type `Source`.

Modules, one per concern:

- `GoStrings` (`go_strings.dfy`) models `strings.Index` and
  `strings.SplitN(s, "+", 2)` for a one-character separator.
- `FilePath` (`file_path.dfy`) models `path/filepath.Ext` and the final path
  element it scans, for `/` as the only separator.
- `CfgViper` (`cfg_viper.dfy`) holds the locator, URL and outcome datatypes,
  `SetRemoteConfig`, the `--config` branch of `ConfigInit`, and the
  properties and worked examples.

Behaviour of the code worth knowing:

- The config type is not lower-cased. `etcd+http://h/k.YAML` gives type `YAML`
  (`ConfigTypeIsExtension`).
- A scheme `etcd` with no `+protocol` is an invalid-scheme error. It is not an
  unsupported-provider error. A scheme with no `+` and any other provider
  (`ftp`) is an unsupported-provider error.
- A path ending in `.` passes the extension check with an empty config type
  (`TrailingDotGivesEmptyType`).
- The source's `len(schemes) < 1` check (pkg/cfgViper/viper.go:136-138) can
  never fire, because `SplitN` with a limit of 2 always returns at least one
  part. `SplitN2`'s contract proves this, so the model has no such branch.
- An empty protocol (`etcd+://h/k.yaml`) is accepted, with endpoint `://h`
  (`EtcdEndpoint`).

## Model

| member | source | states |
|---|---|---|
| `GoStrings.Index` | pkg/cfgViper/viper.go:135 | The result is -1 exactly when the separator is absent. Otherwise it is a position holding the separator with no separator before it. |
| `GoStrings.IndexOfFirst` | pkg/cfgViper/viper.go:135 | In `head + [c] + tail` with no `c` in `head`, the index found is the length of `head`. |
| `GoStrings.SplitN2` | pkg/cfgViper/viper.go:135-138 | There are one or two parts. There is one part, the whole string, exactly when there is no `+`. Otherwise the parts joined by `+` give back the string, and the first part has no `+`. |
| `GoStrings.SplitN2AtFirst` | pkg/cfgViper/viper.go:135-147 | The cut is at the first `+`. Text after it, later `+` included, is the second part. |
| `FilePath.LastElement` | pkg/cfgViper/viper.go:155 | The result is a suffix of the path with no `/`, and it is either the whole path or preceded by `/`. |
| `FilePath.LastElementAppend` | pkg/cfgViper/viper.go:155 | Appending text without `/` to a path appends it to the final element. |
| `FilePath.Ext` | pkg/cfgViper/viper.go:155-158 | The extension is empty exactly when the final element has no `.`. Otherwise it is a suffix of the final element that starts with `.` and has no other `.`. |
| `FilePath.ExtSnoc` | pkg/cfgViper/viper.go:155 | Appending a character that is neither `.` nor `/` extends a found extension and leaves a missing one missing. |
| `FilePath.ExtOfSuffix` | pkg/cfgViper/viper.go:155-160 | `stem + "." + t`, with `t` free of `.` and `/`, has extension `"." + t`. |
| `CfgViper.EtcdSchemeSplit` | pkg/cfgViper/viper.go:135-147 | The scheme splits into provider `etcd` plus a protocol exactly when it starts with `etcd+`. The protocol is then the rest of the scheme. |
| `CfgViper.SchemeFirstField` | pkg/cfgViper/viper.go:135-146 | The first part is the scheme's text before its first `+`. It is `etcd` with no protocol exactly when the scheme is `etcd`. |
| `CfgViper.SetRemoteConfig` | pkg/cfgViper/viper.go:123-160 | The result is never a local source or a parse error. It is a descriptor exactly when the scheme starts with `etcd+` and the path's final element has a `.`. A descriptor has provider `etcd`, endpoint `rest-of-scheme://host`, the URL path unchanged, and a config type without `.` such that `.` + type ends the final element. |
| `CfgViper.EtcdDescriptor` | pkg/cfgViper/viper.go:148-160 | The result is a descriptor exactly when the path's final element has a `.`, and otherwise the missing-extension error. The descriptor keeps the endpoint and path and takes the extension without its dot as config type. |
| `CfgViper.SetRemoteConfigErrors` | pkg/cfgViper/viper.go:135-158 | Missing extension happens exactly for an `etcd+` scheme whose path's final element has no `.`. Invalid scheme happens exactly for scheme `etcd`. Unsupported provider happens exactly for every other scheme, and the provider reported is the scheme's text before its first `+`. |
| `CfgViper.ConfigSource` | pkg/cfgViper/viper.go:54-81 | An empty flag, and only that, gives the default search for `cfgName`. A parse failure, and only that, gives the invalid-locator error. An empty scheme, and only that, gives a local file equal to the flag's text. A non-empty scheme gives exactly `SetRemoteConfig`'s remote outcome. |
| `CfgViper.UnsupportedProviderRejected` | pkg/cfgViper/viper.go:140-151 | A provider other than `etcd`, with or without `+protocol`, is rejected as unsupported for any host and path. |
| `CfgViper.EtcdWithoutProtocolRejected` | pkg/cfgViper/viper.go:143-146 | Scheme `etcd` alone is an invalid scheme. |
| `CfgViper.EtcdEndpoint` | pkg/cfgViper/viper.go:135-149 | For scheme `etcd+q`, the endpoint is `q://host`, later `+` kept, and the path is the URL path unchanged. The only other outcome is the missing-extension error. |
| `CfgViper.MissingExtensionIff` | pkg/cfgViper/viper.go:155-158 | An etcd locator fails for want of an extension exactly when its path's final element has no `.`. |
| `CfgViper.ConfigTypeIsExtension` | pkg/cfgViper/viper.go:155-160 | Path `stem.t`, with `t` free of `.` and `/`, gives exactly the descriptor with type `t`, case unchanged. |
| `CfgViper.TrailingDotGivesEmptyType` | pkg/cfgViper/viper.go:155-160 | A path ending in `.` is accepted with an empty config type. |
| `CfgViper.ExampleEtcdHttp` | pkg/cfgViper/viper.go:124-128 | `etcd+http://127.0.0.1:2380/path/to/key.yaml` gives provider `etcd`, endpoint `http://127.0.0.1:2380`, path `/path/to/key.yaml`, type `yaml`. |
| `CfgViper.ExampleFtp` | pkg/cfgViper/viper.go:140-151 | `ftp://host/file.yaml` is rejected as unsupported provider `ftp`. |
| `CfgViper.ExampleNoExtension` | pkg/cfgViper/viper.go:154-158 | `etcd+http://host/file` fails with the missing-extension error. |
| `CfgViper.ExampleLocal` | pkg/cfgViper/viper.go:65-72 | A scheme-less path is the local config file, unchanged. |

## Left out

- `url.Parse`, including its lower-casing of the scheme: the model takes its result (scheme, host, path, or failure) as input.
- All viper calls (`BindPFlags`, `AutomaticEnv`, `SetEnvPrefix`, `SetEnvKeyReplacer`, `SetConfigFile`, `ReadInConfig`, `ReadRemoteConfig`, `AddRemoteProvider`, `SetConfigType`, `WatchConfig`, `WatchRemoteConfig`): foreign library code. The model's `Source` value is what would be handed to them. A failure of `AddRemoteProvider` is not modelled.
- The precedence merge of defaults, file, environment and flags: it happens inside viper, not in this package.
- pflag registration and parsing of `--config` and `--isRemoteConfig`: command-line I/O. A locator without a scheme combined with `--isRemoteConfig=true` is therefore not modelled.
- The default search-path list (pkg/cfgViper/viper.go:75-80): the `Search` outcome carries only `cfgName`, because the directories are constants handed to viper.
- `WatchRemoteConf` and the file-change callback: a background goroutine that loops forever with a 5-second sleep, driven by timing and file-system events.
- klog logging and the process exit done by `Fatalf`: each becomes an `Error` result.
- The global `isRemoteConfig` assignment (pkg/cfgViper/viper.go:68): process-wide state used only to choose which viper read call follows.
- `GoStrings.Index`: strings are sequences of characters, so positions count characters where Go's `strings.Index` counts bytes. The substrings the resolver takes are unaffected, because every cut is made at an ASCII `+`, `.` or `/`.
- `FilePath.Ext`: models `filepath.Ext` on systems where `/` is the only separator. Windows `\` separators are not modelled.
