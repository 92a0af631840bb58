/** The host the launcher runs on. The Rust code asks `cfg!(target_os = …)`
    and `cfg!(target_arch = …)` at compile time; here the answer is a value
    every platform-dependent operation takes as a parameter. */
module Platform {

  /** Windows, macOS, and every other system, which the launcher treats as
      Linux. */
  datatype Os = Windows | MacOs | Linux

  datatype Arch = X86_64 | Aarch64 | OtherArch

  datatype Platform = Platform(os: Os, arch: Arch)

  /** The separator `Path::join` writes between components. */
  function PathSeparator(os: Os): char
  {
    if os == Windows then '\\' else '/'
  }

  /** The Java executable's file name. */
  function JavaExecutableName(os: Os): string
  {
    if os == Windows then "java.exe" else "java"
  }
}
